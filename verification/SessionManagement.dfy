/**
  The session manager: sessions are created, touched and removed under a lock, while the
  cleanup goroutine first scans for expired sessions and then, having released the lock,
  removes them one at a time.  Times are whole Unix seconds and never decrease; session ids
  are never generated twice.
 */
module SessionManagement {
  import opened Options

  datatype Session = Session(id: string, transport: string, createdAt: int, lastActivity: int)

  datatype Cleanup =
    | Waiting                                    // for the ticker
    | Removing(scanned: int, expired: seq<string>)  // clock at the scan, and the ids still to remove

  datatype State = State(
    timeout: int,
    sessions: map<string, Session>,
    generated: set<string>,       // every id handed out so far
    now: int,
    cleanup: Cleanup)

  datatype Label =
    | Pass(seconds: nat)                      // time passes
    | Create(id: string, transport: string)
    | Get(id: string)
    | Remove(id: string)                      // RemoveSession from outside the cleanup
    | Scan(found: seq<string>)                // the ticker fires; `found` is in map iteration order
    | RemoveNext                              // the cleanup removes the first id of its list
    | FinishPass

  predicate Expired(s: State, id: string) {
    id in s.sessions && s.now - s.sessions[id].lastActivity > s.timeout
  }

  predicate Lists(s: State, found: seq<string>) {
    && (forall i, j | 0 <= i < j < |found| :: found[i] != found[j])
    && (forall id | id in s.sessions :: Expired(s, id) <==> id in found)
    && (forall i | 0 <= i < |found| :: found[i] in s.sessions)
  }

  predicate Enabled(s: State, l: Label) {
    match l
    case Pass(_) | Get(_) | Remove(_) => true
    case Create(id, _) => id !in s.generated
    case Scan(found) => s.cleanup.Waiting? && Lists(s, found)
    case RemoveNext => s.cleanup.Removing? && s.cleanup.expired != []
    case FinishPass => s.cleanup.Removing? && s.cleanup.expired == []
  }

  function Step(s: State, l: Label): State
    requires Enabled(s, l)
  {
    match l
    case Pass(seconds) => s.(now := s.now + seconds)
    case Create(id, transport) =>
      s.(sessions := s.sessions[id := Session(id, transport, s.now, s.now)], generated := s.generated + {id})
    case Get(id) =>
      if id in s.sessions then s.(sessions := s.sessions[id := s.sessions[id].(lastActivity := s.now)]) else s
    case Remove(id) => s.(sessions := s.sessions - {id})
    case Scan(found) => s.(cleanup := Removing(s.now, found))
    case RemoveNext =>
      s.(sessions := s.sessions - {s.cleanup.expired[0]}, cleanup := s.cleanup.(expired := s.cleanup.expired[1..]))
    case FinishPass => s.(cleanup := Waiting)
  }

  predicate Init(s: State) {
    s.sessions == map[] && s.generated == {} && s.cleanup == Waiting
  }

  ghost predicate Execution(tr: seq<State>, ls: seq<Label>) {
    && |tr| == |ls| + 1
    && forall i {:trigger ls[i]} | 0 <= i < |ls| :: Enabled(tr[i], ls[i]) && tr[i + 1] == Step(tr[i], ls[i])
  }

  predicate Sound(s: State) {
    && (forall id | id in s.sessions ::
          && s.sessions[id].id == id && id in s.generated
          && s.sessions[id].createdAt <= s.sessions[id].lastActivity <= s.now)
    && (s.cleanup.Removing? ==> s.cleanup.scanned <= s.now)
    && (s.cleanup.Removing? ==> forall i | 0 <= i < |s.cleanup.expired| :: s.cleanup.expired[i] in s.generated)
  }

  lemma StepKeepsSound(s: State, l: Label)
    requires Sound(s) && Enabled(s, l)
    ensures Sound(Step(s, l))
  {
  }

  /** Keys equal session ids, and CreatedAt <= LastActivity <= now. */
  lemma {:induction false} AlwaysSound(tr: seq<State>, ls: seq<Label>, i: nat)
    requires Execution(tr, ls) && Init(tr[0]) && i < |tr|
    ensures Sound(tr[i])
  {
    if i > 0 {
      AlwaysSound(tr, ls, i - 1);
      assert Enabled(tr[i - 1], ls[i - 1]);
      StepKeepsSound(tr[i - 1], ls[i - 1]);
    }
  }

  predicate Listed(s: State, id: string) { s.cleanup.Removing? && id in s.cleanup.expired }

  /** `id` is alive or doomed as the last scan decided. */
  predicate Spared(s: State, id: string) { id in s.sessions && !Listed(s, id) }

  predicate Doomed(s: State, id: string) { id in s.generated && (id in s.sessions ==> Listed(s, id)) }

  lemma SparedStep(s: State, l: Label, id: string)
    requires Spared(s, id) && Enabled(s, l) && l != Remove(id)
    requires l.Scan? ==> !Expired(s, id)
    ensures Spared(Step(s, l), id)
  {
  }

  lemma DoomedStep(s: State, l: Label, id: string)
    requires Doomed(s, id) && Enabled(s, l)
    ensures Doomed(Step(s, l), id)
  {
  }

  /** A session that is within the timeout at every scan, and that nobody removes explicitly,
      is never removed by the cleanup, however the cleanup interleaves with other calls. */
  lemma {:induction false} ActiveSessionsSurvive(tr: seq<State>, ls: seq<Label>, i: nat, j: nat, id: string)
    requires Execution(tr, ls) && i <= j < |tr| && Spared(tr[i], id)
    requires forall k {:trigger ls[k]} | i <= k < j :: ls[k] != Remove(id) && (ls[k].Scan? ==> !Expired(tr[k], id))
    ensures Spared(tr[j], id)
  {
    if i < j {
      ActiveSessionsSurvive(tr, ls, i, j - 1, id);
      assert Enabled(tr[j - 1], ls[j - 1]);
      SparedStep(tr[j - 1], ls[j - 1], id);
    }
  }

  lemma {:induction false} DoomedForever(tr: seq<State>, ls: seq<Label>, i: nat, j: nat, id: string)
    requires Execution(tr, ls) && i <= j < |tr| && Doomed(tr[i], id)
    ensures Doomed(tr[j], id)
  {
    if i < j {
      DoomedForever(tr, ls, i, j - 1, id);
      assert Enabled(tr[j - 1], ls[j - 1]);
      DoomedStep(tr[j - 1], ls[j - 1], id);
    }
  }

  /** A pass is decided at its scan: of the sessions present then, once the goroutine waits
      again exactly those idle beyond the timeout at the scan are gone, whatever ran in
      between.  Touching a listed session does not save it. */
  lemma PassRemovesExactlyExpired(tr: seq<State>, ls: seq<Label>, k: nat, j: nat, id: string)
    requires Execution(tr, ls) && Init(tr[0])
    requires k < |ls| && ls[k].Scan? && k < j < |tr| && id in tr[k].sessions
    requires tr[j].cleanup.Waiting?
    requires forall m {:trigger ls[m]} | k < m < j :: !ls[m].Scan? && ls[m] != Remove(id)
    ensures id !in tr[j].sessions <==> Expired(tr[k], id)
  {
    AlwaysSound(tr, ls, k);
    assert Enabled(tr[k], ls[k]);
    if Expired(tr[k], id) {
      DoomedForever(tr, ls, k + 1, j, id);
    } else {
      assert id !in ls[k].found;
      ActiveSessionsSurvive(tr, ls, k + 1, j, id);
    }
  }

  /** Removed ids leave for good, whoever removed them: no later call brings the session back,
      even while the cleanup still has it on its list. */
  lemma {:induction false} RemovedStaysRemoved(tr: seq<State>, ls: seq<Label>, i: nat, j: nat, id: string)
    requires Execution(tr, ls) && i <= j < |tr| && id in tr[i].generated && id !in tr[i].sessions
    ensures id in tr[j].generated && id !in tr[j].sessions
  {
    if i < j {
      RemovedStaysRemoved(tr, ls, i, j - 1, id);
      assert Enabled(tr[j - 1], ls[j - 1]);
    }
  }

  // ---------------------------------------------------------------------------
  // Idleness, told from the calls alone
  // ---------------------------------------------------------------------------

  /** The calls that count as activity of a session. */
  predicate Touches(l: Label, id: string) { l == Get(id) || (l.Create? && l.id == id) }

  lemma {:induction false} TimePasses(tr: seq<State>, ls: seq<Label>, i: nat, j: nat)
    requires Execution(tr, ls) && i <= j < |tr|
    ensures tr[i].now <= tr[j].now && tr[i].timeout == tr[j].timeout
  {
    if i < j {
      TimePasses(tr, ls, i, j - 1);
      assert Enabled(tr[j - 1], ls[j - 1]);
    }
  }

  /** LastActivity is the time of the last call of Create or Get for the session, and nothing but
      its Create sets CreatedAt and the transport. */
  lemma {:induction false} ActivityIsLastTouch(tr: seq<State>, ls: seq<Label>, i: nat, id: string)
    returns (created: nat, touched: nat)
    requires Execution(tr, ls) && Init(tr[0]) && i < |tr| && id in tr[i].sessions
    ensures created <= touched < i && Touches(ls[touched], id)
    ensures forall m | touched < m < i :: !Touches(ls[m], id)
    ensures tr[i].sessions[id].lastActivity == tr[touched].now
    ensures ls[created] == Create(id, tr[i].sessions[id].transport)
    ensures tr[i].sessions[id].createdAt == tr[created].now
  {
    var s, l := tr[i - 1], ls[i - 1];
    assert Enabled(s, l);
    if l.Create? && l.id == id {
      created, touched := i - 1, i - 1;
    } else {
      created, touched := ActivityIsLastTouch(tr, ls, i - 1, id);
      if l == Get(id) {
        touched := i - 1;
      }
    }
  }

  /** Some call for the session lies at most `timeout` seconds before state `m`. */
  ghost predicate UsedInTime(tr: seq<State>, ls: seq<Label>, m: nat, id: string)
    requires m <= |ls| < |tr|
  {
    exists k: nat :: k < m && Touches(ls[k], id) && tr[m].now - tr[k].now <= tr[m].timeout
  }

  lemma UsedIsFresh(tr: seq<State>, ls: seq<Label>, m: nat, id: string)
    requires Execution(tr, ls) && Init(tr[0]) && m < |tr| && id in tr[m].sessions
    ensures Expired(tr[m], id) <==> !UsedInTime(tr, ls, m, id)
  {
    var created, touched := ActivityIsLastTouch(tr, ls, m, id);
    if k: nat :| k < m && Touches(ls[k], id) && tr[m].now - tr[k].now <= tr[m].timeout {
      TimePasses(tr, ls, k, touched);
    }
  }

  lemma CreatedIsSpared(tr: seq<State>, ls: seq<Label>, c: nat, id: string)
    requires Execution(tr, ls) && Init(tr[0]) && c < |ls| && ls[c].Create? && ls[c].id == id
    ensures Spared(tr[c + 1], id)
  {
    AlwaysSound(tr, ls, c);
    assert Enabled(tr[c], ls[c]);
  }

  /** A session that nobody removes, and that is created or used at most `timeout` seconds before
      every scan, is never removed. */
  lemma UsedSessionsSurvive(tr: seq<State>, ls: seq<Label>, c: nat, j: nat, id: string)
    requires Execution(tr, ls) && Init(tr[0]) && c < j < |tr| && ls[c].Create? && ls[c].id == id
    requires forall m {:trigger ls[m]} | c < m < j ::
               ls[m] != Remove(id) && (ls[m].Scan? ==> UsedInTime(tr, ls, m, id))
    ensures Spared(tr[j], id)
  {
    CreatedIsSpared(tr, ls, c, id);
    forall m | c < m < j && ls[m].Scan?
      ensures !Expired(tr[m], id)
    {
      if id in tr[m].sessions {
        UsedIsFresh(tr, ls, m, id);
      }
    }
    ActiveSessionsSurvive(tr, ls, c + 1, j, id);
  }

  /** One that was not used that recently at some scan is gone once a pass is over. */
  lemma IdleSessionsGo(tr: seq<State>, ls: seq<Label>, m: nat, j: nat, id: string)
    requires Execution(tr, ls) && Init(tr[0]) && m < |ls| && m < j < |tr|
    requires ls[m].Scan? && id in tr[m].sessions && !UsedInTime(tr, ls, m, id)
    requires tr[j].cleanup.Waiting?
    ensures id !in tr[j].sessions
  {
    UsedIsFresh(tr, ls, m, id);
    AlwaysSound(tr, ls, m);
    assert Enabled(tr[m], ls[m]);
    DoomedForever(tr, ls, m + 1, j, id);
  }

  class SessionManager {
    const timeout: int
    var sessions: map<string, Session>
    ghost var generated: set<string>

    ghost function Model(now: int): State
      reads this
    {
      State(timeout, sessions, generated, now, Waiting)
    }

    constructor (timeout: int)
      ensures forall now :: Init(Model(now))
      ensures this.timeout == timeout
    {
      this.timeout, sessions, generated := timeout, map[], {};
    }

    /** `id` is the freshly generated session id, or nothing when the random source fails. */
    method CreateSession(now: int, transport: string, id: string, randomFails: bool)
      returns (session: Session, err: bool)
      requires id !in generated
      modifies this
      ensures err == randomFails && (err ==> Model(now) == old(Model(now)))
      ensures !err ==> Model(now) == Step(old(Model(now)), Create(id, transport)) && sessions[id] == session
    {
      session, err := Session(id, transport, now, now), randomFails;
      if !randomFails {
        sessions, generated := sessions[id := session], generated + {id};
      }
    }

    method GetSession(now: int, id: string) returns (session: Option<Session>)
      modifies this`sessions
      ensures Model(now) == Step(old(Model(now)), Get(id))
      ensures session == if id in sessions then Some(sessions[id]) else None
      ensures sessions == if id in old(sessions) then old(sessions)[id := old(sessions[id]).(lastActivity := now)]
                          else old(sessions)
    {
      if id !in sessions {
        return None;
      }
      sessions := sessions[id := sessions[id].(lastActivity := now)];
      return Some(sessions[id]);
    }

    method RemoveSession(id: string)
      modifies this`sessions
      ensures sessions == old(sessions) - {id}
      ensures forall now :: Model(now) == Step(old(Model(now)), Remove(id))
    {
      sessions := sessions - {id};
    }

    /** The scan: one pass over the map, in any order. */
    method FindExpired(now: int) returns (expiredSessions: seq<string>)
      ensures Enabled(Model(now), Scan(expiredSessions))
    {
      expiredSessions := [];
      var rest := sessions.Keys;
      while rest != {}
        invariant rest <= sessions.Keys
        invariant forall i, j | 0 <= i < j < |expiredSessions| :: expiredSessions[i] != expiredSessions[j]
        invariant forall id | id in sessions :: id in expiredSessions <==> id !in rest && Expired(Model(now), id)
        invariant forall i | 0 <= i < |expiredSessions| :: expiredSessions[i] in sessions
        decreases |rest|
      {
        var id :| id in rest;
        if now - sessions[id].lastActivity > timeout {
          expiredSessions := expiredSessions + [id];
        }
        rest := rest - {id};
      }
    }

    /** One whole tick of the cleanup with no other call in between. */
    method CleanupExpiredSessions(now: int)
      modifies this`sessions
      ensures sessions == map id | id in old(sessions) && now - old(sessions)[id].lastActivity <= timeout ::
                            old(sessions)[id]
    {
      var expiredSessions := FindExpired(now);
      for i := 0 to |expiredSessions|
        invariant sessions == map id | id in old(sessions) && id !in expiredSessions[..i] :: old(sessions)[id]
      {
        assert expiredSessions[i] in expiredSessions[..i + 1];
        RemoveSession(expiredSessions[i]);
        assert expiredSessions[..i + 1] == expiredSessions[..i] + [expiredSessions[i]];
      }
      assert expiredSessions[..|expiredSessions|] == expiredSessions;
    }
  }
}
