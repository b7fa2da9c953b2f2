/** Pending link attempts and their one-time codes (src/commands/link.rs). */
module LinkCode {

  const TTL_MS := 10 * 60 * 1000
  const MAX_ATTEMPTS := 3

  type Key = string

  datatype Target = Target(uid: string, rk: string)

  datatype Pending = Pending(code: string, target: Target, expiresMs: nat, attempts: nat)

  /** Why a confirm is refused. */
  datatype Refusal = NothingPending | Expired | Exhausted | LastWrong | Wrong(left: nat)

  datatype Outcome = Linked(target: Target) | Refused(why: Refusal)

  /** What happens to the table: a start, a confirm, or a start whose code could not be delivered. */
  datatype Event =
    | Start(key: Key, code: string, target: Target, now: nat)
    | Confirm(key: Key, code: string, now: nat)
    | Cancel(key: Key)

  type Table = map<Key, Pending>

  /** `consume_confirm`. */
  function Consume(t: Table, key: Key, code: string, now: nat): (Table, Outcome) {
    if key !in t then (t, Refused(NothingPending))
    else
      var link := t[key];
      if now > link.expiresMs then (t - {key}, Refused(Expired))
      else if link.attempts >= MAX_ATTEMPTS then (t - {key}, Refused(Exhausted))
      else if code != link.code then
        var attempts := link.attempts + 1;
        if attempts >= MAX_ATTEMPTS then (t - {key}, Refused(LastWrong))
        else (t[key := link.(attempts := attempts)], Refused(Wrong(MAX_ATTEMPTS - attempts)))
      else (t - {key}, Linked(link.target))
  }

  function Next(t: Table, e: Event): Table {
    match e
    case Start(key, code, target, now) => t[key := Pending(code, target, now + TTL_MS, 0)]
    case Confirm(key, code, now) => Consume(t, key, code, now).0
    case Cancel(key) => t - {key}
  }

  function After(trace: seq<Event>): Table {
    if trace == [] then map[] else var n := |trace| - 1; Next(After(trace[..n]), trace[n])
  }

  // ---- The history of one key -------------------------------------------------------------------

  /** The events of `key` behind position `i`. */
  function Attempts(trace: seq<Event>, key: Key, i: nat): nat
    requires i < |trace|
  {
    var n := |trace| - 1;
    if i == n then 0 else Attempts(trace[..n], key, i) + if trace[n].key == key then 1 else 0
  }

  /** The start at `i` is the newest event of its key but for fewer than three wrong codes, all in time. */
  ghost predicate Alive(trace: seq<Event>, key: Key, i: nat) {
    && i < |trace| && trace[i].Start? && trace[i].key == key
    && (forall j | i < j < |trace| && trace[j].key == key ::
          trace[j].Confirm? && trace[j].now <= trace[i].now + TTL_MS && trace[j].code != trace[i].code)
    && Attempts(trace, key, i) < MAX_ATTEMPTS
  }

  /** What the table holds for a living start. */
  ghost function Entry(trace: seq<Event>, key: Key, i: nat): Pending
    requires i < |trace| && trace[i].Start?
  {
    Pending(trace[i].code, trace[i].target, trace[i].now + TTL_MS, Attempts(trace, key, i))
  }

  lemma AliveStep(trace: seq<Event>, key: Key, i: nat)
    requires trace != []
    ensures var n := |trace| - 1; var e := trace[n];
            Alive(trace, key, i) <==>
              if e.key != key then Alive(trace[..n], key, i)
              else if i == n then e.Start?
              else Alive(trace[..n], key, i) && e.Confirm? && e.now <= trace[i].now + TTL_MS && e.code != trace[i].code
                   && Attempts(trace[..n], key, i) + 1 < MAX_ATTEMPTS
  {
    var n := |trace| - 1;
    if i < n {
      assert forall j | 0 <= j < n :: trace[..n][j] == trace[j];
    }
  }

  lemma StartIsAlive(trace: seq<Event>, e: Event)
    requires e.Start?
    ensures Alive(trace + [e], e.key, |trace|) && (trace + [e])[..|trace|] == trace
  {
    AliveStep(trace + [e], e.key, |trace|);
    hide Alive;
    assert (trace + [e])[..|trace|] == trace;
  }

  lemma EntryStep(trace: seq<Event>, key: Key, i: nat)
    requires i < |trace| && trace[i].Start?
    ensures var n := |trace| - 1;
            if i == n then Entry(trace, key, i) == Pending(trace[n].code, trace[n].target, trace[n].now + TTL_MS, 0)
            else
              var before := Entry(trace[..n], key, i);
              Entry(trace, key, i) == before.(attempts := before.attempts + if trace[n].key == key then 1 else 0)
  {
  }

  /** The table holds an entry for exactly the keys with a living start, and that start's data. */
  lemma {:induction false} TableIsHistory(trace: seq<Event>, key: Key)
    ensures key in After(trace) <==> exists i: nat :: Alive(trace, key, i)
    ensures forall i: nat | Alive(trace, key, i) :: After(trace)[key] == Entry(trace, key, i)
  {
    if trace != [] {
      var n := |trace| - 1;
      var e, t := trace[n], After(trace[..n]);
      TableIsHistory(trace[..n], key);
      forall i: nat
        ensures Alive(trace, key, i) ==>
                  key in After(trace) && i < |trace| && trace[i].Start? && After(trace)[key] == Entry(trace, key, i)
      {
        AliveStep(trace, key, i);
        if Alive(trace, key, i) {
          EntryStep(trace, key, i);
          hide Alive, Attempts, Entry;
        }
      }
      if key in After(trace) {
        if e.key == key && e.Start? {
          AliveStep(trace, key, n);
        } else {
          var i: nat :| Alive(trace[..n], key, i);
          AliveStep(trace, key, i);
          hide Attempts;
        }
      }
    }
  }

  // ---- What a confirm answers -----------------------------------------------------------------------

  /** Every stored attempt count stays below the maximum, so a confirm is never refused as exhausted. */
  lemma NeverExhausted(trace: seq<Event>, key: Key, code: string, now: nat)
    ensures key in After(trace) ==> After(trace)[key].attempts < MAX_ATTEMPTS
    ensures Consume(After(trace), key, code, now).1 != Refused(Exhausted)
  {
    TableIsHistory(trace, key);
  }

  /** A confirm succeeds exactly when the newest start of its key was not cancelled, every confirm since
      was in time and wrong, there were fewer than three of them, and this one is in time and right; it
      then yields that start's target.  No assumption on the clock is needed. */
  lemma ConfirmIff(trace: seq<Event>, key: Key, code: string, now: nat)
    ensures var outcome := Consume(After(trace), key, code, now).1;
            && (outcome.Linked? <==>
                  exists i: nat :: Alive(trace, key, i) && now <= trace[i].now + TTL_MS && code == trace[i].code)
            && (forall i: nat | Alive(trace, key, i) && outcome.Linked? :: outcome.target == trace[i].target)
  {
    TableIsHistory(trace, key);
    NeverExhausted(trace, key, code, now);
    hide Alive;
    if key in After(trace) {
      var i: nat :| Alive(trace, key, i);
    }
  }

  /** Which answer a confirm gets: without a living start nothing is pending; with one it is out of time,
      right, or wrong for the first, second or last time.  Everything but a wrong code with tries left
      takes the entry away. */
  lemma AnswerIs(trace: seq<Event>, key: Key, code: string, now: nat)
    ensures var (next, outcome) := Consume(After(trace), key, code, now);
            && ((forall i: nat :: !Alive(trace, key, i)) ==> outcome == Refused(NothingPending) && key !in next)
            && forall i: nat | Alive(trace, key, i) ::
                 if now > trace[i].now + 600000 then outcome == Refused(Expired) && key !in next
                 else if code == trace[i].code then outcome == Linked(trace[i].target) && key !in next
                 else if Attempts(trace, key, i) == 2 then outcome == Refused(LastWrong) && key !in next
                 else outcome == Refused(Wrong(2 - Attempts(trace, key, i))) && key in next
  {
    TableIsHistory(trace, key);
    hide Attempts;
  }

  /** A code works once: after a successful confirm the next one finds nothing. */
  lemma CodeWorksOnce(trace: seq<Event>, key: Key, code: string, now: nat, again: string, later: nat)
    requires Consume(After(trace), key, code, now).1.Linked?
    ensures var next := After(trace + [Confirm(key, code, now)]);
            key !in next && Consume(next, key, again, later).1 == Refused(NothingPending)
  {
    var longer := trace + [Confirm(key, code, now)];
    assert longer[..|trace|] == trace;
  }

  /** Events of other keys change nothing for a key. */
  lemma OthersDoNotInterfere(trace: seq<Event>, e: Event, key: Key, code: string, now: nat)
    requires e.key != key
    ensures Consume(After(trace + [e]), key, code, now).1 == Consume(After(trace), key, code, now).1
  {
    var longer := trace + [e];
    assert longer[..|trace|] == trace;
  }

  // ---- A code that could not be delivered ----------------------------------------------------------

  lemma OnlyNewest(trace: seq<Event>, key: Key, i: nat, j: nat)
    requires i < j < |trace| && trace[j].Start? && trace[j].key == key
    ensures !Alive(trace, key, i)
  {
  }

  /** Delivery is awaited between the start and its withdrawal, which takes whatever is pending under the
      key by then.  So the failure of the start at `i` withdraws another start exactly when a newer one is
      alive; other keys keep what they have. */
  lemma FailureWithdraws(trace: seq<Event>, key: Key, i: nat)
    requires i < |trace| && trace[i].Start? && trace[i].key == key
    ensures After(trace + [Cancel(key)]) == After(trace) - {key}
    ensures key in After(trace) && !Alive(trace, key, i) <==> exists j: nat | i < j < |trace| :: Alive(trace, key, j)
  {
    assert (trace + [Cancel(key)])[..|trace|] == trace;
    TableIsHistory(trace, key);
    if key in After(trace) {
      var j: nat :| Alive(trace, key, j);
      if j < i {
        OnlyNewest(trace, key, j, i);
      }
    }
    forall j: nat | i < j < |trace| && Alive(trace, key, j)
      ensures !Alive(trace, key, i)
    {
      OnlyNewest(trace, key, i, j);
    }
  }

  /** A delivered code that no confirm can use: an older start of the same key failed behind it. */
  lemma NewerStartIsLost(key: Key, older: string, newer: string, target: Target, now: nat, later: nat)
    ensures var trace := [Start(key, older, target, now), Start(key, newer, target, now)];
            && Consume(After(trace), key, newer, now).1 == Linked(target)
            && Consume(After(trace + [Cancel(key)]), key, newer, later).1 == Refused(NothingPending)
  {
    var first := Start(key, older, target, now);
    var trace := [first, Start(key, newer, target, now)];
    assert trace[..1] == [first] && [first][..0] == [];
    FailureWithdraws(trace, key, 0);
  }

  // ---- The table in memory ------------------------------------------------------------------------

  class PendingLinks {
    var pending: Table
    /** Everything that happened since the process started. */
    ghost var trace: seq<Event>

    ghost predicate Valid()
      reads this
    {
      pending == After(trace)
    }

    constructor ()
      ensures Valid() && trace == []
    {
      pending, trace := map[], [];
    }

    method StartLink(key: Key, code: string, target: Target, now: nat)
      requires Valid()
      modifies this
      ensures Valid() && trace == old(trace) + [Start(key, code, target, now)]
      ensures Alive(trace, key, |old(trace)|)
    {
      ghost var e := Start(key, code, target, now);
      StartIsAlive(trace, e);
      hide Alive;
      pending := pending[key := Pending(code, target, now + TTL_MS, 0)];
      trace := trace + [e];
    }

    /** A start whose code could not be delivered is withdrawn, or whatever replaced it meanwhile. */
    method CancelLink(key: Key)
      requires Valid()
      modifies this
      ensures Valid() && trace == old(trace) + [Cancel(key)]
      ensures pending == old(pending) - {key}
    {
      assert (trace + [Cancel(key)])[..|trace|] == trace;
      pending := pending - {key};
      trace := trace + [Cancel(key)];
    }

    method ConsumeConfirm(key: Key, code: string, now: nat) returns (outcome: Outcome)
      requires Valid()
      modifies this
      ensures Valid() && trace == old(trace) + [Confirm(key, code, now)]
      ensures outcome.Linked? <==>
                exists i: nat :: Alive(old(trace), key, i) && now <= old(trace)[i].now + TTL_MS &&
                    code == old(trace)[i].code
      ensures outcome == Consume(old(pending), key, code, now).1 && outcome != Refused(Exhausted)
      ensures outcome == Refused(NothingPending) <==> forall i: nat :: !Alive(old(trace), key, i)
      ensures outcome == Refused(Expired) <==>
                exists i: nat :: Alive(old(trace), key, i) && now > old(trace)[i].now + TTL_MS
    {
      ghost var before := trace;
      trace := trace + [Confirm(key, code, now)];
      assert trace[..|before|] == before;
      hide Alive;
      outcome := Decide(key, code, now);
      ConfirmIff(before, key, code, now);
      AnswerIs(before, key, code, now);
      NeverExhausted(before, key, code, now);
    }

    /** The checks of `consume_confirm`, in its order. */
    method Decide(key: Key, code: string, now: nat) returns (outcome: Outcome)
      modifies this`pending
      ensures (pending, outcome) == Consume(old(pending), key, code, now)
    {
      if key !in pending {
        return Refused(NothingPending);
      }
      var link := pending[key];
      if now > link.expiresMs {
        pending := pending - {key};
        return Refused(Expired);
      }
      if link.attempts >= MAX_ATTEMPTS {
        pending := pending - {key};
        return Refused(Exhausted);
      }
      if code != link.code {
        link := link.(attempts := link.attempts + 1);
        pending := pending[key := link];
        if link.attempts >= MAX_ATTEMPTS {
          pending := pending - {key};
          assert pending == old(pending) - {key};
          return Refused(LastWrong);
        }
        return Refused(Wrong(MAX_ATTEMPTS - link.attempts));
      }
      pending := pending - {key};
      return Linked(link.target);
    }
  }
}
