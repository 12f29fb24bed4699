/** The registry of capture sessions and its persisted copy (internal/source/httpcap/session.go,
    internal/store/live_sessions.go).

    `Registry` is the in-memory object: two indexes and two kinds of headers, under one lock.  Each of its
    methods runs under the lock and is proved equal to a function on `Memory`; registering is two
    such steps, since the record is saved after the lock is released. */
module Sessions {
  import opened Options

  /** http.Header. */
  type Header = map<string, seq<string>>

  /** A session's routing facts; sessions and their persisted records have the same fields. */
  datatype Record = Record(id: string, token: string, client: string, upstream: string, provider: string, mode: string)

  datatype Memory = Memory(byToken: map<string, Record>, byID: map<string, Record>,
                           headers: map<string, Header>, inject: map<string, Header>)

  const EMPTY := Memory(map[], map[], map[], map[])

  /** Saved records are keyed by id, and no two share a token. */
  ghost predicate WellKeyed(records: map<string, Record>) {
    && (forall id :: id in records ==> records[id].id == id)
    && (forall i, j :: i in records && j in records && records[i].token == records[j].token ==> i == j)
  }

  // ----- what each step does -----

  function Publish(m: Memory, r: Record): Memory {
    m.(byToken := m.byToken[r.token := r], byID := m.byID[r.id := r])
  }

  function Forget(m: Memory, id: string): Memory {
    if id !in m.byID then m
    else Memory(m.byToken - {m.byID[id].token}, m.byID - {id}, m.headers - {id}, m.inject - {id})
  }

  ghost function Tokens(records: map<string, Record>): set<string> {
    set id | id in records :: records[id].token
  }

  ghost function Holder(records: map<string, Record>, token: string): Record
    requires token in Tokens(records)
  {
    var id :| id in records && records[id].token == token;
    records[id]
  }

  /** The token index of a set of records. */
  ghost function TokenIndex(records: map<string, Record>): map<string, Record> {
    map t | t in Tokens(records) :: Holder(records, t)
  }

  lemma TokenIndexed(records: map<string, Record>, id: string)
    requires WellKeyed(records) && id in records
    ensures records[id].token in TokenIndex(records) && TokenIndex(records)[records[id].token] == records[id]
  {
    assert records[id].token in Tokens(records);
  }

  ghost function Rehydrate(m: Memory, saved: map<string, Record>): Memory {
    m.(byToken := m.byToken + TokenIndex(saved), byID := m.byID + saved)
  }

  /** The loop of BindPersister: every row is published in turn. */
  function PublishAll(m: Memory, recs: seq<Record>): Memory {
    if recs == [] then m else Publish(PublishAll(m, recs[..|recs| - 1]), recs[|recs| - 1])
  }

  ghost function Restrict<V>(m: map<string, V>, keys: set<string>): map<string, V> {
    map k | k in m && k in keys :: m[k]
  }

  ghost function IdsOf(recs: seq<Record>): set<string> {
    set r | r in recs :: r.id
  }

  ghost function TokensOf(recs: seq<Record>): set<string> {
    set r | r in recs :: r.token
  }

  lemma {:induction false} PublishAllRestricts(m: Memory, recs: seq<Record>, saved: map<string, Record>)
    requires WellKeyed(saved) && forall r :: r in recs ==> r.id in saved && saved[r.id] == r
    ensures PublishAll(m, recs) == m.(byToken := m.byToken + Restrict(TokenIndex(saved), TokensOf(recs)),
                                      byID := m.byID + Restrict(saved, IdsOf(recs)))
  {
    if recs == [] {
      assert m.byToken + Restrict(TokenIndex(saved), TokensOf(recs)) == m.byToken;
      assert m.byID + Restrict(saved, IdsOf(recs)) == m.byID;
    } else {
      var p, r := recs[..|recs| - 1], recs[|recs| - 1];
      assert recs == p + [r] && r in recs;
      PublishAllRestricts(m, p, saved);
      TokenIndexed(saved, r.id);
      KeysSnoc(p, r);
      ExtendRestrict(m.byID, saved, IdsOf(p), r.id);
      ExtendRestrict(m.byToken, TokenIndex(saved), TokensOf(p), r.token);
    }
  }

  lemma KeysSnoc(p: seq<Record>, r: Record)
    ensures IdsOf(p + [r]) == IdsOf(p) + {r.id} && TokensOf(p + [r]) == TokensOf(p) + {r.token}
  {
    assert forall x :: x in p + [r] <==> x in p || x == r;
  }

  lemma ExtendRestrict<V>(base: map<string, V>, full: map<string, V>, keys: set<string>, k: string)
    requires k in full
    ensures (base + Restrict(full, keys))[k := full[k]] == base + Restrict(full, keys + {k})
  {
  }

  ghost predicate KeyedByID(records: map<string, Record>) {
    forall id :: id in records ==> records[id].id == id
  }

  /** All rows of the table, in some order. */
  ghost predicate AreRowsOf(recs: seq<Record>, saved: map<string, Record>) {
    forall r :: r in recs <==> r.id in saved && saved[r.id] == r
  }

  /** Whatever the rows hold and in whatever order they come, every saved session is back under its id, and exactly the
      tokens held before or by a row are routed, a row's token to a row that holds it. */
  lemma PublishAllIndexes(m: Memory, recs: seq<Record>, id: string, t: string)
    ensures var m' := PublishAll(m, recs);
            && m'.headers == m.headers && m'.inject == m.inject
            && (if id in IdsOf(recs) then id in m'.byID && m'.byID[id].id == id && m'.byID[id] in recs
                else (id in m'.byID <==> id in m.byID) && (id in m.byID ==> m'.byID[id] == m.byID[id]))
            && (if t in TokensOf(recs) then t in m'.byToken && m'.byToken[t].token == t && m'.byToken[t] in recs
                else (t in m'.byToken <==> t in m.byToken) && (t in m.byToken ==> m'.byToken[t] == m.byToken[t]))
  {
    IDsArePublished(m, recs, id);
    TokensArePublished(m, recs, t);
  }

  lemma {:induction false} IDsArePublished(m: Memory, recs: seq<Record>, id: string)
    ensures var m' := PublishAll(m, recs);
            && m'.headers == m.headers && m'.inject == m.inject
            && (if id in IdsOf(recs) then id in m'.byID && m'.byID[id].id == id && m'.byID[id] in recs
                else (id in m'.byID <==> id in m.byID) && (id in m.byID ==> m'.byID[id] == m.byID[id]))
  {
    if recs != [] {
      var p, r := recs[..|recs| - 1], recs[|recs| - 1];
      IDsArePublished(m, p, id);
      KeysSnoc(p, r);
      assert recs == p + [r];
    }
  }

  lemma {:induction false} TokensArePublished(m: Memory, recs: seq<Record>, t: string)
    ensures var m' := PublishAll(m, recs);
            if t in TokensOf(recs) then t in m'.byToken && m'.byToken[t].token == t && m'.byToken[t] in recs
            else (t in m'.byToken <==> t in m.byToken) && (t in m.byToken ==> m'.byToken[t] == m.byToken[t])
  {
    if recs != [] {
      var p, r := recs[..|recs| - 1], recs[|recs| - 1];
      TokensArePublished(m, p, t);
      KeysSnoc(p, r);
      assert recs == p + [r];
    }
  }

  /** Publishing all saved rows, in any order, rehydrates both indexes. */
  lemma PublishAllRehydrates(m: Memory, recs: seq<Record>, saved: map<string, Record>)
    requires WellKeyed(saved) && AreRowsOf(recs, saved)
    ensures PublishAll(m, recs) == Rehydrate(m, saved)
  {
    PublishAllRestricts(m, recs, saved);
    forall id | id in saved ensures id in IdsOf(recs) && saved[id].token in TokensOf(recs) {
      assert saved[id] in recs;
    }
    assert Restrict(saved, IdsOf(recs)) == saved;
    assert Restrict(TokenIndex(saved), TokensOf(recs)) == TokenIndex(saved);
  }

  /** The two indexes hold the same sessions, one to one. */
  ghost predicate IndexesAgree(m: Memory) {
    && (forall t :: t in m.byToken ==> m.byToken[t].token == t && m.byToken[t].id in m.byID && m.byID[m.byToken[t].id] == m.byToken[t])
    && (forall id :: id in m.byID ==> m.byID[id].id == id && m.byID[id].token in m.byToken && m.byToken[m.byID[id].token] == m.byID[id])
  }

  /** The routing record a token leads to. */
  function Route(m: Memory, token: string): Option<Record> {
    if token in m.byToken then Some(m.byToken[token]) else None
  }

  /** Where the next request of each token goes, step by step: publishing routes the session's token to it, removing ends
      the session's own route, and every other route stays. */
  lemma RoutesFollowTheSteps(m: Memory, r: Record, id: string, t: string)
    requires IndexesAgree(m)
    ensures Route(Publish(m, r), t) == if t == r.token then Some(r) else Route(m, t)
    ensures Route(Forget(m, id), t) == if Route(m, t).Some? && Route(m, t).value.id == id then None else Route(m, t)
  {
  }

  /** Removing a live session takes its id, its token and both kinds of its headers away, and nothing else. */
  lemma ForgetTakesOneSession(m: Memory, id: string, other: string, t: string)
    requires IndexesAgree(m)
    ensures var m' := Forget(m, id);
            && id !in m'.byID && (id in m.byID ==> id !in m'.headers && id !in m'.inject && m.byID[id].token !in m'.byToken)
            && (id !in m.byID ==> m' == m)
            && (other != id ==>
                  && (other in m'.byID <==> other in m.byID) && (other in m.byID ==> m'.byID[other] == m.byID[other])
                  && (other in m'.headers <==> other in m.headers) && (other in m.headers ==> m'.headers[other] == m.headers[other])
                  && (other in m'.inject <==> other in m.inject) && (other in m.inject ==> m'.inject[other] == m.inject[other]))
            && (t in m.byToken && m.byToken[t].id != id ==> t in m'.byToken && m'.byToken[t] == m.byToken[t])
  {
  }

  predicate NeedsKeyIn(m: Memory, id: string) {
    id in m.byID && m.byID[id].mode == "key" && id !in m.inject
  }

  function TrimRightSlashes(s: string): (t: string)
    ensures t <= s && (t == "" || t[|t| - 1] != '/')
    ensures forall i :: |t| <= i < |s| ==> s[i] == '/'
  {
    if s != "" && s[|s| - 1] == '/' then TrimRightSlashes(s[..|s| - 1]) else s
  }

  // ----- the database table -----

  class Store {
    var saved: map<string, Record>

    constructor ()
      ensures saved == map[]
    {
      saved := map[];
    }

    method SaveSession(r: Record)
      modifies this
      ensures saved == old(saved)[r.id := r]
    {
      saved := saved[r.id := r];
    }

    method DeleteSession(id: string)
      modifies this
      ensures saved == old(saved) - {id}
    {
      saved := saved - {id};
    }

    /** All rows, in the order the database yields them. */
    method AllSessions() returns (recs: seq<Record>)
      requires KeyedByID(saved)
      ensures AreRowsOf(recs, saved)
    {
      recs := [];
      var todo := saved.Keys;
      while todo != {}
        invariant todo <= saved.Keys
        invariant forall r :: r in recs <==> r.id in saved && saved[r.id] == r && r.id !in todo
        decreases todo
      {
        var id :| id in todo;
        todo := todo - {id};
        recs := recs + [saved[id]];
      }
    }
  }

  // ----- the registry -----

  class Registry {
    var byToken: map<string, Record>
    var byID: map<string, Record>
    var headers: map<string, Header>
    var inject: map<string, Header>
    var persist: Store?

    function Contents(): Memory
      reads this
    {
      Memory(byToken, byID, headers, inject)
    }

    constructor ()
      ensures Contents() == EMPTY && persist == null
    {
      byToken, byID, headers, inject, persist := map[], map[], map[], map[], null;
    }

    /** Attaches the persister and brings back the saved sessions, but no headers and no keys.  Of rows that share a
        token the last one read has the route. */
    method BindPersister(p: Store)
      requires KeyedByID(p.saved)
      modifies this
      ensures persist == p
      ensures exists recs :: AreRowsOf(recs, p.saved) && Contents() == PublishAll(old(Contents()), recs)
      ensures WellKeyed(p.saved) ==> Contents() == Rehydrate(old(Contents()), p.saved)
    {
      var recs := p.AllSessions();
      persist := p;
      assert recs[..0] == [];
      for k := 0 to |recs|
        invariant persist == p && p.saved == old(p.saved)
        invariant Contents() == PublishAll(old(Contents()), recs[..k])
      {
        var sess := recs[k];
        assert recs[..k + 1][..k] == recs[..k];
        byToken := byToken[sess.token := sess];
        byID := byID[sess.id := sess];
      }
      assert recs[..|recs|] == recs;
      assert AreRowsOf(recs, p.saved);
      if WellKeyed(p.saved) {
        PublishAllRehydrates(old(Contents()), recs, p.saved);
      }
    }

    /** The critical section of Register. */
    method PublishSession(r: Record)
      modifies this
      ensures Contents() == Publish(old(Contents()), r) && persist == old(persist)
    {
      byToken := byToken[r.token := r];
      byID := byID[r.id := r];
    }

    /** Register without interruption: publish, then save when there is a persister. */
    method Register(client: string, upstream: string, provider: string, mode: string, freshID: string, freshToken: string)
      returns (sess: Record)
      modifies this, persist
      ensures sess == Record(freshID, freshToken, client, TrimRightSlashes(upstream), provider, mode)
      ensures Contents() == Publish(old(Contents()), sess) && persist == old(persist)
      ensures persist != null ==> persist.saved == old(if persist == null then map[] else persist.saved)[sess.id := sess]
    {
      sess := Record(freshID, freshToken, client, TrimRightSlashes(upstream), provider, mode);
      PublishSession(sess);
      if persist != null {
        persist.SaveSession(sess);
      }
    }

    method RememberHeaders(id: string, h: Header)
      modifies this
      ensures Contents() == old(Contents()).(headers := old(headers)[id := h]) && persist == old(persist)
    {
      headers := headers[id := h];
    }

    method RememberInject(id: string, h: Header)
      modifies this
      ensures Contents() == old(Contents()).(inject := old(inject)[id := h]) && persist == old(persist)
    {
      inject := inject[id := h];
    }

    method NeedsKey(id: string) returns (needs: bool)
      ensures needs <==> NeedsKeyIn(Contents(), id)
    {
      needs := id in byID && byID[id].mode == "key" && id !in inject;
    }

    /** While the indexes agree, this is the live session that holds the token, and nothing only when none does. */
    method Lookup(token: string) returns (sess: Option<Record>)
      ensures sess == Route(Contents(), token)
      ensures IndexesAgree(Contents()) ==>
              match sess
              case Some(r) => r.token == token && r.id in byID && byID[r.id] == r
              case None => forall id :: id in byID ==> byID[id].token != token
    {
      if token in byToken {
        return Some(byToken[token]);
      }
      return None;
    }

    /** While the indexes agree, this is the session with the id to which its own token is routed, and nothing only when
        no token is routed to one. */
    method Get(id: string) returns (sess: Option<Record>)
      ensures sess.Some? <==> id in byID
      ensures sess.Some? ==> sess.value == byID[id]
      ensures IndexesAgree(Contents()) ==>
              match sess
              case Some(r) => r.id == id && Route(Contents(), r.token) == Some(r)
              case None => forall t :: Route(Contents(), t).Some? ==> Route(Contents(), t).value.id != id
    {
      if id in byID {
        return Some(byID[id]);
      }
      return None;
    }

    /** Remove deletes the saved record while it still holds the lock. */
    method Remove(id: string) returns (removed: bool)
      modifies this, persist
      ensures removed <==> id in old(byID)
      ensures Contents() == Forget(old(Contents()), id) && persist == old(persist)
      ensures persist != null ==>
              persist.saved == old(if persist == null then map[] else persist.saved) - (if removed then {id} else {})
    {
      if id !in byID {
        return false;
      }
      var sess := byID[id];
      byToken := byToken - {sess.token};
      byID := byID - {id};
      headers := headers - {id};
      inject := inject - {id};
      if persist != null {
        persist.DeleteSession(id);
      }
      return true;
    }
  }
}
