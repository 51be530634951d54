// services/cache.py: token, connection and OAuth-state entries in one expiring store.
module Cache {
  import opened Prelude

  const TOKEN_TTL := 300.0
  const CONNS_TTL := 300.0
  const STATE_TTL := 600.0

  datatype Value =
    | TokenValue(token: string)
    | ConnsValue(providers: set<string>)
    | StateValue(user: string, session: Option<string>)

  datatype Entry = Entry(value: Value, deadline: real)

  function TokenKey(user: string, provider: string): string { "token:" + user + ":" + provider }
  function ConnsKey(user: string): string { "user_conns:" + user }
  function StateKey(state: string): string { "oauth_state:" + state }

  // GET: what a key holds at time now.
  function Peek(store: map<string, Entry>, key: string, now: real): Option<Value> {
    if key in store && now < store[key].deadline then Some(store[key].value) else None
  }

  // ---------------------------------------------------------------------------
  // Keys never collide
  // ---------------------------------------------------------------------------

  lemma SplitAtColon(u: string, p: string, v: string, q: string)
    requires ':' !in u && ':' !in v && u + ":" + p == v + ":" + q
    ensures u == v && p == q
  {
    var a := u + ":" + p;
    assert a[|u|] == ':' && a[|v|] == ':';
    assert forall i :: 0 <= i < |u| ==> a[i] == u[i];
    assert forall i :: 0 <= i < |v| ==> a[i] == v[i];
    assert |u| == |v|;
    assert u == a[..|u|] && v == a[..|v|];
    assert p == a[|u| + 1..] && q == a[|v| + 1..];
  }

  // User ids are UUIDs and so hold no colon; provider names may.
  lemma TokenKeysInjective(u: string, p: string, v: string, q: string)
    requires ':' !in u && ':' !in v
    ensures TokenKey(u, p) == TokenKey(v, q) <==> u == v && p == q
  {
    if TokenKey(u, p) == TokenKey(v, q) {
      assert u + ":" + p == TokenKey(u, p)[6..];
      assert v + ":" + q == TokenKey(v, q)[6..];
      SplitAtColon(u, p, v, q);
    }
  }

  lemma FamiliesDisjoint(u: string, p: string, v: string, st: string)
    ensures TokenKey(u, p) != ConnsKey(v) && TokenKey(u, p) != StateKey(st) && ConnsKey(v) != StateKey(st)
  {
    assert TokenKey(u, p)[0] == 't' && ConnsKey(v)[0] == 'u' && StateKey(st)[0] == 'o';
  }

  // Writing one token disturbs no other token, no connection set and no OAuth state.
  lemma TokenWriteIsLocal(store: map<string, Entry>, u: string, p: string, e: Entry,
                          v: string, q: string, st: string, t: real)
    requires ':' !in u && ':' !in v
    ensures var after := store[TokenKey(u, p) := e];
            && ((v, q) != (u, p) ==> Peek(after, TokenKey(v, q), t) == Peek(store, TokenKey(v, q), t))
            && Peek(after, ConnsKey(v), t) == Peek(store, ConnsKey(v), t)
            && Peek(after, StateKey(st), t) == Peek(store, StateKey(st), t)
  {
    TokenKeysInjective(u, p, v, q);
    FamiliesDisjoint(u, p, v, st);
  }

  class Store {
    var store: map<string, Entry>

    constructor ()
      ensures store == map[]
    {
      store := map[];
    }

    method CacheToken(user: string, provider: string, token: string, now: real)
      modifies this
      ensures store == old(store)[TokenKey(user, provider) := Entry(TokenValue(token), now + TOKEN_TTL)]
      ensures forall t :: Peek(store, TokenKey(user, provider), t) ==
                if t < now + 300.0 then Some(TokenValue(token)) else None
    {
      store := store[TokenKey(user, provider) := Entry(TokenValue(token), now + TOKEN_TTL)];
    }

    method GetCachedToken(user: string, provider: string, now: real) returns (token: Option<string>)
      ensures match token
              case Some(x) => Peek(store, TokenKey(user, provider), now) == Some(TokenValue(x))
              case None => forall x :: Peek(store, TokenKey(user, provider), now) != Some(TokenValue(x))
    {
      var found := Peek(store, TokenKey(user, provider), now);
      token := if found.Some? && found.value.TokenValue? then Some(found.value.token) else None;
    }

    method InvalidateToken(user: string, provider: string)
      modifies this
      ensures store == old(store) - {TokenKey(user, provider)}
      ensures forall t :: Peek(store, TokenKey(user, provider), t) == None
    {
      store := store - {TokenKey(user, provider)};
    }

    method StoreOauthState(state: string, user: string, session: Option<string>, now: real)
      modifies this
      ensures store == old(store)[StateKey(state) := Entry(StateValue(user, session), now + STATE_TTL)]
    {
      store := store[StateKey(state) := Entry(StateValue(user, session), now + STATE_TTL)];
    }

    // GET and DEL in one transaction: whatever was found, the key is gone afterwards.
    method PopOauthState(state: string, now: real) returns (found: Option<Value>)
      modifies this
      ensures found == Peek(old(store), StateKey(state), now)
      ensures store == old(store) - {StateKey(state)}
      ensures forall t :: Peek(store, StateKey(state), t) == None
    {
      found := Peek(store, StateKey(state), now);
      store := store - {StateKey(state)};
    }

    method SetUserConnections(user: string, providers: set<string>, now: real)
      modifies this
      ensures store == old(store)[ConnsKey(user) := Entry(ConnsValue(providers), now + CONNS_TTL)]
    {
      store := store[ConnsKey(user) := Entry(ConnsValue(providers), now + CONNS_TTL)];
    }

    method InvalidateUserConnections(user: string)
      modifies this
      ensures store == old(store) - {ConnsKey(user)}
    {
      store := store - {ConnsKey(user)};
    }
  }
}
