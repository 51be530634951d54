// The chat history: four kinds of message, and the questions the orchestrator asks of them.
module Messages {

  // The empty string stands for an absent or falsy identifier.
  type CallId = string

  // Message content is a plain string or a list of blocks; of a list only the
  // countable text parts matter here.
  datatype Content = Text(text: string) | Blocks(parts: seq<string>)

  datatype Call = Call(id: CallId, name: string)

  // `extra` holds the call ids found in an AI message's additional_kwargs.
  datatype Message =
    | Human(id: string, content: Content)
    | System(id: string, content: Content)
    | AI(id: string, content: Content, calls: seq<Call>, extra: seq<CallId>)
    | Tool(id: string, content: Content, answers: CallId)

  // Characters removed by Python's str.strip().
  predicate IsSpace(c: char) {
    || '\U{0009}' <= c <= '\U{000D}' || '\U{001C}' <= c <= '\U{0020}'
    || c == '\U{0085}' || c == '\U{00A0}' || c == '\U{1680}'
    || '\U{2000}' <= c <= '\U{200A}' || c == '\U{2028}' || c == '\U{2029}'
    || c == '\U{202F}' || c == '\U{205F}' || c == '\U{3000}'
  }

  // content and isinstance(content, str) and content.strip()
  predicate HasText(c: Content) {
    c.Text? && exists i :: 0 <= i < |c.text| && !IsSpace(c.text[i])
  }

  function IdsOf(calls: seq<Call>): set<CallId> {
    set c | c in calls :: c.id
  }

  // All ids of the calls a message makes: its call group.
  function CallIds(m: Message): set<CallId> {
    if m.AI? then IdsOf(m.calls) + (set e | e in m.extra) else {}
  }

  // A tool response whose call id is truthy.
  predicate Answers(m: Message) {
    m.Tool? && m.answers != ""
  }

  function Responded(ms: seq<Message>): set<CallId> {
    set m | m in ms && Answers(m) :: m.answers
  }

  function Called(ms: seq<Message>): set<CallId> {
    set m, c | m in ms && c in CallIds(m) :: c
  }

  // Index of the last human message, or -1.
  function LastHuman(ms: seq<Message>): (k: int)
    ensures -1 <= k < |ms|
    ensures k >= 0 ==> ms[k].Human?
    ensures forall i :: k < i < |ms| ==> !ms[i].Human?
  {
    if ms == [] then -1
    else if ms[|ms| - 1].Human? then |ms| - 1
    else LastHuman(ms[..|ms| - 1])
  }

  lemma LastHumanUnique(ms: seq<Message>, k: int)
    requires -1 <= k < |ms|
    requires k >= 0 ==> ms[k].Human?
    requires forall i :: k < i < |ms| ==> !ms[i].Human?
    ensures LastHuman(ms) == k
  {
    var h := LastHuman(ms);
    assert forall i :: 0 <= i < |ms| && ms[i].Human? ==> i <= h && i <= k;
  }

  lemma RespondedAppend(a: seq<Message>, b: seq<Message>)
    ensures Responded(a + b) == Responded(a) + Responded(b)
  {
    forall m | Answers(m) ensures m in a + b <==> m in a || m in b {}
  }

  lemma CalledAppend(a: seq<Message>, b: seq<Message>)
    ensures Called(a + b) == Called(a) + Called(b)
  {
    forall m: Message ensures m in a + b <==> m in a || m in b {}
  }

  // The loop behind CallIds: both places a call id can hide in.
  method ExtractToolCallIds(msg: Message) returns (ids: set<CallId>)
    ensures ids == CallIds(msg)
  {
    ids := {};
    if msg.AI? {
      for i := 0 to |msg.calls|
        invariant ids == IdsOf(msg.calls[..i])
      {
        assert msg.calls[..i + 1] == msg.calls[..i] + [msg.calls[i]];
        ids := ids + {msg.calls[i].id};
      }
      assert msg.calls[..|msg.calls|] == msg.calls;
      for i := 0 to |msg.extra|
        invariant ids == IdsOf(msg.calls) + set e | e in msg.extra[..i]
      {
        ids := ids + {msg.extra[i]};
      }
      assert msg.extra[..|msg.extra|] == msg.extra;
    }
  }
}
