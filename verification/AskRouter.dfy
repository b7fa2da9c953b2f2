/** The table of outstanding `ask_user` calls (src/agents/ask_router.rs), as the atomic steps that
    concurrent waiters and fulfillers interleave.

    A waiter fetches a generation, inserts its sender (dropping the sender it replaced a moment
    later), blocks, is woken or cancelled, and finally drops its guard.  A fulfiller removes the
    entry of a session and then sends.  Every step below is one access to the shared table or to
    one oneshot channel, so a run is any sequence of enabled steps.
 */
module AskRouter {
  import opened Text

  type Session = string
  type Message = string
  type WaitId = nat
  type CallId = nat

  /** What became of the sender half of a waiter's oneshot channel. */
  datatype Channel = Unsent | Sent(call: CallId, reply: Message) | SenderDropped

  datatype Outcome = Reply(reply: Message) | Superseded | Cancelled

  /** Where a `wait_for_reply` future stands. */
  datatype Phase =
    | Fetched                    // has a generation, its sender is still local
    | Replacing(displaced: WaitId)// inserted; holds the sender it displaced, about to drop it
    | Blocked                    // awaiting its receiver, guard armed
    | Leaving(outcome: Outcome)  // receiver gone, guard not yet dropped
    | Gone(outcome: Outcome)     // guard dropped

  datatype Wait = Wait(session: Session, generation: nat, phase: Phase, channel: Channel) {
    predicate Live() { phase.Replacing? || phase.Blocked? || phase.Leaving? }
  }

  datatype Entry = Entry(generation: nat, sender: WaitId)

  /** A `fulfill` call between its removal and its send, or finished. */
  datatype Call = Sending(sender: WaitId, reply: Message) | Done(target: Option<WaitId>) {
    predicate ReturnsTrue() { Sending? || target.Some? }
  }

  datatype State = State(
    pending: map<Session, Entry>,
    nextGen: nat,
    waits: map<WaitId, Wait>,
    calls: map<CallId, Call>
  )

  datatype Step =
    | Fetch(w: WaitId, session: Session)
    | Insert(w: WaitId)
    | DropReplaced(w: WaitId)
    | Remove(c: CallId, session: Session, reply: Message)
    | Send(c: CallId)
    | Wake(w: WaitId)
    | Cancel(w: WaitId)
    | DropGuard(w: WaitId)

  const Empty := State(map[], 0, map[], map[])

  function WithPhase(s: State, w: WaitId, phase: Phase): State
    requires w in s.waits
  {
    s.(waits := s.waits[w := s.waits[w].(phase := phase)])
  }

  predicate Enabled(s: State, step: Step) {
    match step
    case Fetch(w, _) => w !in s.waits
    case Insert(w) => w in s.waits && s.waits[w].phase.Fetched?
    case DropReplaced(w) => w in s.waits && s.waits[w].phase.Replacing? && s.waits[w].phase.displaced in s.waits
    case Remove(c, _, _) => c !in s.calls
    case Send(c) => c in s.calls && s.calls[c].Sending? && s.calls[c].sender in s.waits
    case Wake(w) => w in s.waits && s.waits[w].phase.Blocked? && !s.waits[w].channel.Unsent?
    case Cancel(w) => w in s.waits && s.waits[w].phase.Blocked?
    case DropGuard(w) => w in s.waits && s.waits[w].phase.Leaving?
  }

  function Apply(s: State, step: Step): State
    requires Enabled(s, step)
  {
    match step
    case Fetch(w, session) =>
      s.(nextGen := s.nextGen + 1, waits := s.waits[w := Wait(session, s.nextGen, Fetched, Unsent)])
    case Insert(w) =>
      var session := s.waits[w].session;
      var phase := if session in s.pending then Replacing(s.pending[session].sender) else Blocked;
      WithPhase(s, w, phase).(pending := s.pending[session := Entry(s.waits[w].generation, w)])
    case DropReplaced(w) =>
      var displaced := s.waits[w].phase.displaced;
      var dropped := s.(waits := s.waits[displaced := s.waits[displaced].(channel := SenderDropped)]);
      WithPhase(dropped, w, Blocked)
    case Remove(c, session, reply) =>
      if session in s.pending then
        s.(pending := s.pending - {session}, calls := s.calls[c := Sending(s.pending[session].sender, reply)])
      else
        s.(calls := s.calls[c := Done(None)])
    case Send(c) =>
      var Sending(w, reply) := s.calls[c];
      var done := s.(calls := s.calls[c := Done(Some(w))]);
      // A send to a receiver that is gone is ignored.
      if s.waits[w].phase.Leaving? || s.waits[w].phase.Gone? then
        done
      else
        done.(waits := s.waits[w := s.waits[w].(channel := Sent(c, reply))])
    case Wake(w) =>
      WithPhase(s, w, Leaving(if s.waits[w].channel.Sent? then Reply(s.waits[w].channel.reply) else Superseded))
    case Cancel(w) => WithPhase(s, w, Leaving(Cancelled))
    case DropGuard(w) =>
      var Wait(session, generation, phase, _) := s.waits[w];
      var left := WithPhase(s, w, Gone(phase.outcome));
      if session in s.pending && s.pending[session].generation == generation then
        left.(pending := s.pending - {session})
      else
        left
  }

  // ---- Where a sender is ------------------------------------------------------------------

  /** The places that can own the sender of a waiter. */
  datatype Place = Local | Table | InCall(c: CallId) | InHand(holder: WaitId)

  ghost predicate Owns(s: State, p: Place, w: WaitId) {
    match p
    case Local => w in s.waits && s.waits[w].phase.Fetched?
    case Table => w in s.waits && s.waits[w].session in s.pending && s.pending[s.waits[w].session].sender == w
    case InCall(c) => c in s.calls && s.calls[c].Sending? && s.calls[c].sender == w
    case InHand(holder) => holder in s.waits && s.waits[holder].phase.Replacing? && s.waits[holder].phase.displaced == w
  }

  /** Generations are fresh and tell waiters apart. */
  ghost predicate GenerationsDistinct(s: State) {
    && (forall w <- s.waits :: s.waits[w].generation < s.nextGen)
    && (forall v, w | v in s.waits && w in s.waits && v != w :: s.waits[v].generation != s.waits[w].generation)
  }

  /** Each table entry belongs to a live waiter of its session. */
  ghost predicate EntriesLive(s: State) {
    forall session <- s.pending ::
      var Entry(g, w) := s.pending[session];
      w in s.waits && s.waits[w].session == session && s.waits[w].generation == g && s.waits[w].Live()
  }

  /** A sender has one owner at most; an owned sender is unused and its waiter has been seen. */
  ghost predicate SendersLinear(s: State) {
    && (forall p, q, w | Owns(s, p, w) && Owns(s, q, w) :: p == q)
    && (forall p, w | Owns(s, p, w) :: w in s.waits && s.waits[w].channel.Unsent?)
    && (forall holder, w | Owns(s, InHand(holder), w) :: s.waits[w].session == s.waits[holder].session)
  }

  /** The sender of `w` is unused and its receiver is still there. */
  ghost predicate Waiting(s: State, w: WaitId) {
    w in s.waits && s.waits[w].channel.Unsent? && !s.waits[w].phase.Leaving? && !s.waits[w].phase.Gone?
  }

  /** Such a sender is owned somewhere, so the waiter can still be answered. */
  ghost predicate NoLostSender(s: State) {
    forall w | Waiting(s, w) :: exists p :: Owns(s, p, w)
  }

  /** A delivered reply names the call that carried it, and outcomes come from channels. */
  ghost predicate RepliesTraced(s: State) {
    forall w <- s.waits :: ReplyTraced(s, w)
  }

  ghost predicate ReplyTraced(s: State, w: WaitId)
    requires w in s.waits
  {
    var Wait(_, _, phase, channel) := s.waits[w];
    && (channel.Sent? ==> channel.call in s.calls && s.calls[channel.call] == Done(Some(w)))
    && (phase.Leaving? || phase.Gone? ==> OutcomeMatches(phase.outcome, channel))
  }

  predicate OutcomeMatches(o: Outcome, c: Channel) {
    && (o.Reply? ==> c.Sent? && c.reply == o.reply)
    && (o.Superseded? ==> c.SenderDropped?)
  }

  ghost predicate Inv(s: State) {
    GenerationsDistinct(s) && EntriesLive(s) && SendersLinear(s) && NoLostSender(s) && RepliesTraced(s)
  }

  /** Where the sender of `w`, found at `p`, is after a step. */
  ghost function Moved(s: State, step: Step, p: Place, w: WaitId): Place
    requires Enabled(s, step) && w in s.waits
  {
    match step
    case Insert(v) =>
      if w == v then Table
      else if p == Table && s.waits[v].session == s.waits[w].session then InHand(v)
      else p
    case Remove(c, session, _) => if p == Table && session == s.waits[w].session then InCall(c) else p
    case _ => p
  }

  /** A step changes no generation but the one it hands out. */
  lemma GenerationsKept(s: State, step: Step, w: WaitId)
    requires Enabled(s, step) && w in Apply(s, step).waits
    ensures w in s.waits ==> Apply(s, step).waits[w].generation == s.waits[w].generation
    ensures w !in s.waits ==> step.Fetch? && step.w == w && Apply(s, step).waits[w].generation == s.nextGen
    ensures Apply(s, step).nextGen == s.nextGen + if step.Fetch? then 1 else 0
  {
  }

  lemma GenerationsStayDistinct(s: State, step: Step)
    requires GenerationsDistinct(s) && Enabled(s, step)
    ensures GenerationsDistinct(Apply(s, step))
  {
    hide Apply;
    forall w | w in Apply(s, step).waits {
      GenerationsKept(s, step, w);
    }
  }

  lemma EntryStaysLive(s: State, step: Step, session: Session)
    requires EntriesLive(s) && Enabled(s, step)
    requires session in Apply(s, step).pending
    ensures var t := Apply(s, step); var Entry(g, w) := t.pending[session];
            w in t.waits && t.waits[w].session == session && t.waits[w].generation == g && t.waits[w].Live()
  {
    match step
    case Insert(v) =>
      assert session != s.waits[v].session ==> session in s.pending;
    case DropGuard(v) =>
      assert session in s.pending;
    case _ =>
      assert session in s.pending;
  }

  lemma EntriesStayLive(s: State, step: Step)
    requires EntriesLive(s) && Enabled(s, step)
    ensures EntriesLive(Apply(s, step))
  {
    hide Apply;
    forall session | session in Apply(s, step).pending {
      EntryStaysLive(s, step, session);
    }
  }

  /** Inserting moves the waiter's own sender into the table and the displaced one into its hand. */
  lemma InsertMoves(s: State, v: WaitId, p: Place, w: WaitId)
    requires Enabled(s, Insert(v)) && EntriesLive(s) && SendersLinear(s)
    requires w in s.waits
    ensures Owns(s, p, w) ==> Owns(Apply(s, Insert(v)), Moved(s, Insert(v), p, w), w)
    ensures Owns(Apply(s, Insert(v)), p, w) ==>
              exists q :: Owns(s, q, w) && p == Moved(s, Insert(v), q, w)
    ensures Owns(Apply(s, Insert(v)), p, w) ==> Sound(Apply(s, Insert(v)), p, w)
  {
    var t := Apply(s, Insert(v));
    assert Owns(s, Local, v);
    if w == v {
      assert Owns(s, p, w) ==> p == Local;
      assert Owns(t, p, w) ==> p == Table;
    } else if p == InHand(v) {
      assert Owns(t, p, w) ==> Owns(s, Table, w) && p == Moved(s, Insert(v), Table, w);
    } else {
      assert Owns(t, p, w) ==> Owns(s, p, w) && p == Moved(s, Insert(v), p, w);
    }
  }

  /** A dropped guard removes its own entry or nothing: the sender of every other waiter stays put. */
  lemma GuardSparesOthers(s: State, v: WaitId, p: Place, w: WaitId)
    requires Enabled(s, DropGuard(v)) && EntriesLive(s) && GenerationsDistinct(s)
    requires Owns(s, p, w) && w in s.waits && v != w
    ensures Owns(Apply(s, DropGuard(v)), p, w)
  {
  }

  /** The channel of a sender still owned is unused, and a displaced sender is of its holder's session. */
  ghost predicate Sound(s: State, q: Place, w: WaitId) {
    && w in s.waits && s.waits[w].channel.Unsent?
    && (q.InHand? ==> q.holder in s.waits && s.waits[w].session == s.waits[q.holder].session)
  }

  lemma OwnedIsSound(s: State, p: Place, w: WaitId)
    requires SendersLinear(s) && Owns(s, p, w)
    ensures Sound(s, p, w)
  {
  }

  lemma SoleOwner(s: State, p: Place, q: Place, w: WaitId)
    requires SendersLinear(s) && Owns(s, p, w) && Owns(s, q, w)
    ensures p == q
  {
  }

  lemma SendMoves(s: State, c: CallId, p: Place, w: WaitId)
    requires Enabled(s, Send(c)) && SendersLinear(s) && Owns(s, p, w) && Waiting(Apply(s, Send(c)), w)
    ensures Owns(Apply(s, Send(c)), p, w)
  {
    if s.calls[c].sender == w {
      SoleOwner(s, p, InCall(c), w);
    }
    hide SendersLinear;
  }

  lemma DropMoves(s: State, v: WaitId, p: Place, w: WaitId)
    requires Enabled(s, DropReplaced(v)) && SendersLinear(s) && Owns(s, p, w) && Waiting(Apply(s, DropReplaced(v)), w)
    ensures Owns(Apply(s, DropReplaced(v)), p, w)
  {
    if s.waits[v].phase.displaced == w {
      SoleOwner(s, p, InHand(v), w);
    }
    hide SendersLinear;
  }

  lemma OwnerMoved(s: State, step: Step, p: Place, w: WaitId)
    requires Enabled(s, step) && EntriesLive(s) && SendersLinear(s)
    requires !step.Insert? && !step.DropGuard?
    requires Owns(s, p, w) && Waiting(Apply(s, step), w)
    ensures Owns(Apply(s, step), Moved(s, step, p, w), w)
  {
    OwnedIsSound(s, p, w);
    match step
    case Send(c) =>
      hide Apply, Owns, EntriesLive, SendersLinear, Waiting;
      SendMoves(s, c, p, w);
    case DropReplaced(v) =>
      hide Apply, Owns, EntriesLive, SendersLinear, Waiting;
      DropMoves(s, v, p, w);
    case _ =>
      hide EntriesLive, SendersLinear;
  }

  lemma StaysSound(s: State, step: Step, q: Place, w: WaitId)
    requires Enabled(s, step) && !step.Insert? && SendersLinear(s)
    requires Owns(s, q, w) && Owns(Apply(s, step), q, w)
    ensures Sound(Apply(s, step), q, w)
  {
    OwnedIsSound(s, q, w);
    match step
    case Send(c) =>
      assert Owns(s, InCall(c), s.calls[c].sender);
    case DropReplaced(v) =>
      assert Owns(s, InHand(v), s.waits[v].phase.displaced);
    case _ =>
      hide SendersLinear;
  }

  /** A sender owned after a step was owned before it, and moved the way `Moved` says. */
  lemma OwnerCameFrom(s: State, step: Step, q: Place, w: WaitId)
    requires Enabled(s, step) && EntriesLive(s) && SendersLinear(s)
    requires Owns(Apply(s, step), q, w) && w in s.waits
    ensures exists p :: Owns(s, p, w) && q == Moved(s, step, p, w)
    ensures Sound(Apply(s, step), q, w)
  {
    match step
    case Insert(v) =>
      InsertMoves(s, v, q, w);
    case Remove(c, _, _) =>
      hide EntriesLive;
      if q == InCall(c) {
        assert Owns(s, Table, w) && q == Moved(s, step, Table, w);
        OwnedIsSound(s, Table, w);
      } else {
        StaysSound(s, step, q, w);
      }
    case _ =>
      hide SendersLinear, EntriesLive, Apply, Sound;
      StaysSound(s, step, q, w);
  }

  lemma NewcomerOwnsItsSender(s: State, step: Step, q: Place, w: WaitId)
    requires Enabled(s, step) && EntriesLive(s) && SendersLinear(s)
    requires Owns(Apply(s, step), q, w) && w !in s.waits
    ensures step.Fetch? && step.w == w && q == Local
  {
    assert !Owns(s, q, w);
  }

  lemma SendersStayLinear(s: State, step: Step)
    requires Enabled(s, step) && EntriesLive(s) && SendersLinear(s)
    ensures SendersLinear(Apply(s, step))
  {
    var t := Apply(s, step);
    forall p, q, w | Owns(t, p, w) && Owns(t, q, w)
      ensures p == q
    {
      if w in s.waits {
        OwnerCameFrom(s, step, p, w);
        OwnerCameFrom(s, step, q, w);
      } else {
        NewcomerOwnsItsSender(s, step, p, w);
        NewcomerOwnsItsSender(s, step, q, w);
      }
    }
    forall p, w | Owns(t, p, w)
      ensures w in t.waits && t.waits[w].channel.Unsent?
      ensures p.InHand? ==> t.waits[w].session == t.waits[p.holder].session
    {
      if w in s.waits {
        OwnerCameFrom(s, step, p, w);
      } else {
        NewcomerOwnsItsSender(s, step, p, w);
      }
    }
  }

  lemma NoSenderIsLost(s: State, step: Step)
    requires Inv(s) && Enabled(s, step)
    ensures NoLostSender(Apply(s, step))
  {
    var t := Apply(s, step);
    forall w | Waiting(t, w)
      ensures exists p :: Owns(t, p, w)
    {
      if step.Fetch? && step.w == w {
        assert Owns(t, Local, w);
      } else {
        assert Waiting(s, w);
        var p :| Owns(s, p, w);
        match step
        case Insert(v) => InsertMoves(s, v, p, w);
        case DropGuard(v) => GuardSparesOthers(s, v, p, w);
        case _ => OwnerMoved(s, step, p, w);
      }
    }
  }

  lemma ReplyStaysTraced(s: State, step: Step, w: WaitId)
    requires SendersLinear(s) && Enabled(s, step) && w in s.waits && ReplyTraced(s, w)
    ensures w in Apply(s, step).waits && ReplyTraced(Apply(s, step), w)
  {
    match step
    case Send(c) =>
      hide Apply, SendersLinear, ReplyTraced;
      OwnedIsSound(s, InCall(c), s.calls[c].sender);
    case DropReplaced(v) =>
      hide Apply, SendersLinear, ReplyTraced;
      OwnedIsSound(s, InHand(v), s.waits[v].phase.displaced);
    case _ =>
      hide SendersLinear;
  }

  lemma RepliesStayTraced(s: State, step: Step)
    requires SendersLinear(s) && RepliesTraced(s) && Enabled(s, step)
    ensures RepliesTraced(Apply(s, step))
  {
    var t := Apply(s, step);
    hide SendersLinear, ReplyTraced, Apply;
    forall w | w in t.waits
      ensures ReplyTraced(t, w)
    {
      if w in s.waits {
        ReplyStaysTraced(s, step, w);
      }
    }
  }

  /** Every step of every waiter and fulfiller keeps the invariant. */
  lemma StepKeepsInv(s: State, step: Step)
    requires Inv(s) && Enabled(s, step)
    ensures Inv(Apply(s, step))
  {
    GenerationsStayDistinct(s, step);
    EntriesStayLive(s, step);
    SendersStayLinear(s, step);
    NoSenderIsLost(s, step);
    RepliesStayTraced(s, step);
  }

  // ---- Runs -------------------------------------------------------------------------------

  /** `run` is a possible interleaving: each step is enabled where it is taken. */
  ghost predicate Possible(run: seq<Step>)
    decreases |run|, 0
  {
    run != [] ==> var n := |run| - 1; Possible(run[..n]) && Enabled(After(run[..n]), run[n])
  }

  ghost function After(run: seq<Step>): State
    requires Possible(run)
    decreases |run|, 1
  {
    if run == [] then Empty else var n := |run| - 1; Apply(After(run[..n]), run[n])
  }

  lemma {:induction false} RunKeepsInv(run: seq<Step>)
    requires Possible(run)
    ensures Inv(After(run))
  {
    if run != [] {
      var n := |run| - 1;
      RunKeepsInv(run[..n]);
      StepKeepsInv(After(run[..n]), run[n]);
    }
  }

  lemma {:induction false} PrefixPossible(run: seq<Step>, n: nat)
    requires Possible(run) && n <= |run|
    ensures Possible(run[..n])
  {
    if n < |run| {
      PrefixPossible(run[..|run| - 1], n);
      assert run[..|run| - 1][..n] == run[..n];
    } else {
      assert run[..n] == run;
    }
  }

  // ---- What every run guarantees ----------------------------------------------------------

  /** With no live waiter the table is empty: no ended wait leaks its entry. */
  lemma NoWaiterNoEntry(run: seq<Step>)
    requires Possible(run)
    requires forall w <- After(run).waits :: !After(run).waits[w].Live()
    ensures After(run).pending == map[]
  {
    RunKeepsInv(run);
    var s := After(run);
    assert forall session :: session !in s.pending;
  }

  /** Dropping a guard removes the entry its own wait inserted, when that is still there, and no other. */
  lemma GuardRemovesOnlyItsOwn(run: seq<Step>, v: WaitId)
    requires Possible(run) && Enabled(After(run), DropGuard(v))
    ensures var s := After(run); var t := Apply(s, DropGuard(v));
            t.pending == if Owns(s, Table, v) then s.pending - {s.waits[v].session} else s.pending
  {
    RunKeepsInv(run);
    var s := After(run);
    var session := s.waits[v].session;
    if session in s.pending {
      var other := s.pending[session].sender;
      assert other != v ==> s.waits[other].generation != s.waits[v].generation;
    }
  }

  /** A blocked waiter is never stranded: it can wake, it can be answered, or the holder of its
      sender has a step that will wake it. */
  lemma BlockedCanProceed(run: seq<Step>, w: WaitId)
    requires Possible(run)
    requires w in After(run).waits && After(run).waits[w].phase.Blocked?
    ensures var s := After(run);
            || Enabled(s, Wake(w))
            || Owns(s, Table, w)
            || (exists c :: Owns(s, InCall(c), w) && Enabled(s, Send(c)))
            || (exists v :: Owns(s, InHand(v), w) && Enabled(s, DropReplaced(v)))
  {
    RunKeepsInv(run);
    var s := After(run);
    if s.waits[w].channel.Unsent? {
      assert Waiting(s, w);
      var p :| Owns(s, p, w);
      match p
      case Local => assert false;
      case Table =>
      case InCall(c) => assert Enabled(s, Send(c));
      case InHand(v) => assert Enabled(s, DropReplaced(v));
    }
  }

  /** Once replacements and sends have finished, the waiters that can still be answered are exactly
      the table: one for each session with an entry. */
  lemma QuietTableIsTheBlocked(run: seq<Step>, w: WaitId)
    requires Possible(run) && w in After(run).waits && After(run).waits[w].phase.Blocked?
    requires forall v <- After(run).waits :: !After(run).waits[v].phase.Replacing?
    requires forall c <- After(run).calls :: !After(run).calls[c].Sending?
    ensures After(run).waits[w].channel.Unsent? <==> Owns(After(run), Table, w)
  {
    RunKeepsInv(run);
    BlockedCanProceed(run, w);
  }

  /** The ask of `session` inserted last. */
  ghost function LatestAsk(run: seq<Step>, session: Session): Option<WaitId>
    requires Possible(run)
  {
    if run == [] then None
    else var n := |run| - 1; LatestAfter(After(run[..n]), run[n], session, LatestAsk(run[..n], session))
  }

  ghost function LatestAfter(s: State, step: Step, session: Session, before: Option<WaitId>): Option<WaitId>
    requires Enabled(s, step)
  {
    if step.Insert? && s.waits[step.w].session == session then Some(step.w) else before
  }

  /** An entry of `session` is the ask inserted last; a displaced sender never is. */
  ghost predicate TableShows(s: State, session: Session, latest: Option<WaitId>) {
    && (session in s.pending ==> latest == Some(s.pending[session].sender))
    && (forall v, w | Owns(s, InHand(v), w) && w in s.waits && s.waits[w].session == session :: latest != Some(w))
  }

  lemma DisplacedIsNotLatest(s: State, step: Step, session: Session, latest: Option<WaitId>, v: WaitId, w: WaitId)
    requires Inv(s) && Enabled(s, step) && TableShows(s, session, latest)
    requires var t := Apply(s, step); Owns(t, InHand(v), w) && w in t.waits && t.waits[w].session == session
    ensures LatestAfter(s, step, session, latest) != Some(w)
  {
    hide GenerationsDistinct, NoLostSender, RepliesTraced;
    if w !in s.waits {
      NewcomerOwnsItsSender(s, step, InHand(v), w);
    } else if step.Insert? {
      hide EntriesLive;
      if v == step.w {
        InsertDisplaces(s, v, w);
      } else {
        SoleOwnerStays(s, step, v, w);
      }
    } else {
      StepKeepsWait(s, step, w);
    }
  }

  /** The newcomer's hand holds what the table held for its session. */
  lemma InsertDisplaces(s: State, v: WaitId, w: WaitId)
    requires Enabled(s, Insert(v)) && Owns(Apply(s, Insert(v)), InHand(v), w) && SendersLinear(s)
    ensures s.waits[v].session in s.pending && s.pending[s.waits[v].session].sender == w
    ensures w in s.waits && s.waits[w].session == s.waits[v].session ==> w != v
  {
    hide SendersLinear;
    if w == v && s.waits[v].session in s.pending {
      assert Owns(s, Local, v) && Owns(s, Table, v);
      SoleOwner(s, Local, Table, v);
    }
  }

  lemma SoleOwnerStays(s: State, step: Step, v: WaitId, w: WaitId)
    requires step.Insert? && Enabled(s, step) && SendersLinear(s) && v != step.w && w in s.waits
    requires Owns(Apply(s, step), InHand(v), w)
    ensures Owns(s, InHand(v), w) && w != step.w && Apply(s, step).waits[w].session == s.waits[w].session
  {
    hide SendersLinear;
    if w == step.w {
      assert Owns(s, Local, w) && Owns(s, InHand(v), w);
      SoleOwner(s, Local, InHand(v), w);
    }
  }

  lemma StepShowsLatest(s: State, step: Step, session: Session, latest: Option<WaitId>)
    requires Inv(s) && Enabled(s, step) && TableShows(s, session, latest)
    ensures TableShows(Apply(s, step), session, LatestAfter(s, step, session, latest))
  {
    var t := Apply(s, step);
    hide Apply, Inv, LatestAfter;
    forall v, w | Owns(t, InHand(v), w) && w in t.waits && t.waits[w].session == session
      ensures LatestAfter(s, step, session, latest) != Some(w)
    {
      DisplacedIsNotLatest(s, step, session, latest, v, w);
    }
  }

  lemma {:induction false} TableShowsLatestAsk(run: seq<Step>, session: Session)
    requires Possible(run)
    ensures TableShows(After(run), session, LatestAsk(run, session))
  {
    if run != [] {
      var n := |run| - 1;
      TableShowsLatestAsk(run[..n], session);
      RunKeepsInv(run[..n]);
      StepShowsLatest(After(run[..n]), run[n], session, LatestAsk(run[..n], session));
    }
  }

  /** The ask inserted last, while it still waits, is in the table or in a fulfil about to send. */
  lemma LatestAskIsAnswerable(run: seq<Step>, w: WaitId)
    requires Possible(run) && Waiting(After(run), w)
    requires LatestAsk(run, After(run).waits[w].session) == Some(w)
    requires !After(run).waits[w].phase.Fetched?
    ensures Owns(After(run), Table, w) || exists c :: Owns(After(run), InCall(c), w)
  {
    RunKeepsInv(run);
    TableShowsLatestAsk(run, After(run).waits[w].session);
    var p :| Owns(After(run), p, w);
  }

  ghost function TargetOf(call: Call): Option<WaitId> {
    match call
    case Sending(w, _) => Some(w)
    case Done(target) => target
  }

  /** A `fulfill` returns true exactly when its session had an entry, and then its reply is bound to
      the ask of that session inserted last. */
  lemma {:induction false} FulfilTargetsLatestAsk(run: seq<Step>, i: nat)
    requires Possible(run) && i < |run| && run[i].Remove?
    ensures Possible(run[..i])
    ensures run[i].c in After(run).calls
    ensures var s, call := After(run[..i]), After(run).calls[run[i].c];
            && (call.ReturnsTrue() <==> run[i].session in s.pending)
            && (call.ReturnsTrue() ==> TargetOf(call) == LatestAsk(run[..i], run[i].session))
  {
    PrefixPossible(run, i);
    var n := |run| - 1;
    if i < n {
      hide Apply, LatestAsk, TargetOf, Enabled;
      assert run[..n][..i] == run[..i];
      FulfilTargetsLatestAsk(run[..n], i);
      StepKeepsCall(After(run[..n]), run[n], run[i].c);
    } else {
      TableShowsLatestAsk(run[..i], run[i].session);
      RemovalTargets(After(run[..i]), run[i], LatestAsk(run[..i], run[i].session));
    }
  }

  /** The target and the result of a `fulfill` are settled by its removal. */
  lemma StepKeepsCall(s: State, step: Step, c: CallId)
    requires Enabled(s, step) && c in s.calls
    ensures c in Apply(s, step).calls
    ensures Apply(s, step).calls[c].ReturnsTrue() == s.calls[c].ReturnsTrue()
    ensures TargetOf(Apply(s, step).calls[c]) == TargetOf(s.calls[c])
  {
  }

  lemma RemovalTargets(s: State, step: Step, latest: Option<WaitId>)
    requires Enabled(s, step) && step.Remove? && TableShows(s, step.session, latest)
    ensures var t := Apply(s, step);
            && step.c in t.calls && (t.calls[step.c].ReturnsTrue() <==> step.session in s.pending)
            && (t.calls[step.c].ReturnsTrue() ==> TargetOf(t.calls[step.c]) == latest)
  {
    hide Owns;
  }

  /** The `Remove` that started call `c`. */
  lemma {:induction false} CallOrigin(run: seq<Step>, c: CallId) returns (i: nat)
    requires Possible(run) && c in After(run).calls
    ensures i < |run| && run[i].Remove? && run[i].c == c
    ensures After(run).calls[c].Sending? ==> After(run).calls[c].reply == run[i].reply
  {
    hide Apply, Enabled;
    var n := |run| - 1;
    if c in After(run[..n]).calls {
      i := CallOrigin(run[..n], c);
      StillSending(After(run[..n]), run[n], c);
    } else {
      i := n;
      CallStarts(After(run[..n]), run[n], c);
    }
  }

  lemma StillSending(s: State, step: Step, c: CallId)
    requires Enabled(s, step) && c in s.calls && c in Apply(s, step).calls
    ensures Apply(s, step).calls[c].Sending? ==> Apply(s, step).calls[c] == s.calls[c]
  {
  }

  lemma CallStarts(s: State, step: Step, c: CallId)
    requires Enabled(s, step) && c !in s.calls && c in Apply(s, step).calls
    ensures step.Remove? && step.c == c
    ensures Apply(s, step).calls[c].Sending? ==> Apply(s, step).calls[c].reply == step.reply
  {
  }

  /** A sent reply is the one its call removed the entry with. */
  lemma {:induction false} SentReplyOrigin(run: seq<Step>, w: WaitId) returns (i: nat)
    requires Possible(run) && w in After(run).waits && After(run).waits[w].channel.Sent?
    ensures i < |run| && run[i].Remove?
    ensures run[i].c == After(run).waits[w].channel.call && run[i].reply == After(run).waits[w].channel.reply
  {
    var n := |run| - 1;
    var s := After(run[..n]);
    if w in s.waits && s.waits[w].channel == After(run).waits[w].channel {
      i := SentReplyOrigin(run[..n], w);
    } else {
      i := CallOrigin(run[..n], run[n].c);
    }
  }

  lemma StepKeepsWait(s: State, step: Step, w: WaitId)
    requires SendersLinear(s) && Enabled(s, step) && w in s.waits
    ensures w in Apply(s, step).waits && Apply(s, step).waits[w].session == s.waits[w].session
    ensures s.waits[w].channel.Sent? ==> Apply(s, step).waits[w].channel == s.waits[w].channel
  {
    match step
    case Send(c) => assert Owns(s, InCall(c), s.calls[c].sender);
    case DropReplaced(v) => assert Owns(s, InHand(v), s.waits[v].phase.displaced);
    case _ =>
  }

  lemma {:induction false} LatestAskHasSession(run: seq<Step>, session: Session, w: WaitId)
    requires Possible(run) && LatestAsk(run, session) == Some(w)
    ensures w in After(run).waits && After(run).waits[w].session == session
  {
    var n := |run| - 1;
    RunKeepsInv(run[..n]);
    if LatestAsk(run[..n], session) == Some(w) {
      LatestAskHasSession(run[..n], session, w);
    }
    StepKeepsWait(After(run[..n]), run[n], w);
  }

  /** The session of a wait never changes, nor does a reply once sent. */
  lemma {:induction false} WaitIsFixed(run: seq<Step>, i: nat, w: WaitId)
    requires Possible(run) && i <= |run| && Possible(run[..i]) && w in After(run[..i]).waits
    ensures w in After(run).waits && After(run).waits[w].session == After(run[..i]).waits[w].session
    ensures After(run[..i]).waits[w].channel.Sent? ==> After(run).waits[w].channel == After(run[..i]).waits[w].channel
  {
    var n := |run| - 1;
    if i <= n {
      assert run[..n][..i] == run[..i];
      WaitIsFixed(run[..n], i, w);
      RunKeepsInv(run[..n]);
      StepKeepsWait(After(run[..n]), run[n], w);
    } else {
      assert run[..i] == run;
    }
  }

  /** Reply delivery: a waiter that returned a reply got it from one `fulfill` of its own session, made
      while it was the newest ask, and no other waiter was sent anything by that call. */
  lemma ReplyDelivery(run: seq<Step>, w: WaitId) returns (i: nat)
    requires Possible(run) && w in After(run).waits
    requires After(run).waits[w].phase.Leaving? || After(run).waits[w].phase.Gone?
    requires After(run).waits[w].phase.outcome.Reply?
    ensures i < |run| && Possible(run[.. i]) && run[i].Remove?
    ensures run[i].session == After(run).waits[w].session && run[i].reply == After(run).waits[w].phase.outcome.reply
    ensures LatestAsk(run[.. i], run[i].session) == Some(w)
    ensures forall v <- After(run).waits | v != w ::
              !(After(run).waits[v].channel.Sent? && After(run).waits[v].channel.call == run[i].c)
  {
    RunKeepsInv(run);
    i := SentReplyOrigin(run, w);
    FulfilTargetsLatestAsk(run, i);
    LatestAskHasSession(run[..i], run[i].session, w);
    WaitIsFixed(run, i, w);
  }

  // ---- Where every ask ends ---------------------------------------------------------------

  predicate Ended(s: State, w: WaitId) {
    w in s.waits && (s.waits[w].phase.Leaving? || s.waits[w].phase.Gone?)
  }

  predicate EndedCancelled(s: State, w: WaitId) {
    Ended(s, w) && s.waits[w].phase.outcome == Cancelled
  }

  lemma StepCancels(s: State, step: Step, w: WaitId)
    requires Enabled(s, step)
    ensures EndedCancelled(Apply(s, step), w) <==> step == Cancel(w) || EndedCancelled(s, w)
  {
  }

  /** A wait is cancelled exactly when it is cancelled from outside; waking never does that. */
  lemma {:induction false} CancelledIff(run: seq<Step>, w: WaitId)
    requires Possible(run)
    ensures EndedCancelled(After(run), w) <==> Cancel(w) in run
  {
    if run != [] {
      hide Apply, Enabled, EndedCancelled;
      var n := |run| - 1;
      CancelledIff(run[..n], w);
      StepCancels(After(run[..n]), run[n], w);
      assert run == run[..n] + [run[n]];
    }
  }

  /** The call of a removal is under way with the reply of that removal until its send. */
  lemma {:induction false} CallPends(run: seq<Step>, i: nat)
    requires Possible(run) && i < |run| && run[i].Remove?
    ensures run[i].c in After(run).calls
    ensures After(run).calls[run[i].c].Sending? ==> After(run).calls[run[i].c].reply == run[i].reply
    ensures After(run).calls[run[i].c].ReturnsTrue() && Send(run[i].c) !in run ==> After(run).calls[run[i].c].Sending?
  {
    hide Apply, Enabled;
    var n := |run| - 1;
    if i < n {
      CallPends(run[..n], i);
      StepKeepsCall(After(run[..n]), run[n], run[i].c);
      StillPends(After(run[..n]), run[n], run[i].c);
    } else {
      RemovalPends(After(run[..n]), run[n]);
    }
  }

  lemma StillPends(s: State, step: Step, c: CallId)
    requires Enabled(s, step) && c in s.calls && c in Apply(s, step).calls
    ensures Apply(s, step).calls[c].Sending? ==> Apply(s, step).calls[c] == s.calls[c]
    ensures s.calls[c].Sending? && step != Send(c) ==> Apply(s, step).calls[c].Sending?
  {
  }

  lemma RemovalPends(s: State, step: Step)
    requires Enabled(s, step) && step.Remove?
    ensures var t := Apply(s, step);
            && step.c in t.calls && (t.calls[step.c].ReturnsTrue() ==> t.calls[step.c].Sending?)
            && (t.calls[step.c].Sending? ==> t.calls[step.c].reply == step.reply)
  {
  }

  /** A `fulfill` that found an entry is over only when it has sent. */
  lemma FulfilledHasSent(run: seq<Step>, i: nat)
    requires Possible(run) && i < |run| && run[i].Remove?
    ensures run[i].c in After(run).calls
    ensures var call := After(run).calls[run[i].c];
            call.Done? && call.ReturnsTrue() ==> Send(run[i].c) in run
  {
    CallPends(run, i);
  }

  lemma SendIsOfCall(s: State, c: CallId)
    requires Enabled(s, Send(c))
    ensures c in s.calls && s.calls[c].Sending? && TargetOf(s.calls[c]) == Some(s.calls[c].sender)
    ensures s.calls[c].ReturnsTrue()
  {
  }

  /** What a send leaves in its target's channel. */
  lemma SendLeaves(s: State, c: CallId)
    requires Inv(s) && Enabled(s, Send(c))
    ensures var w := s.calls[c].sender;
            && w in s.waits && w in Apply(s, Send(c)).waits && s.waits[w].channel == Unsent
            && Apply(s, Send(c)).waits[w].channel == (if Ended(s, w) then Unsent else Sent(c, s.calls[c].reply))
            && (Ended(s, w) ==> EndedCancelled(s, w))
  {
    assert Owns(s, InCall(c), s.calls[c].sender);
  }

  /** A call that is sending was removed earlier in the run, and by one step only. */
  lemma SendFollowsRemove(run: seq<Step>, i: nat, j: nat)
    requires Possible(run) && i < |run| && j < |run| && run[i].Remove? && run[j] == Send(run[i].c)
    ensures i < j
  {
    PrefixPossible(run, i);
    PrefixPossible(run, j);
    PrefixPossible(run, j + 1);
    assert run[.. j + 1][..j] == run[..j];
    if j < i {
      PrefixPossible(run, i + 1);
      assert run[.. i + 1][..i] == run[..i];
      var k := CallOrigin(run[..j], run[i].c);
      assert run[..i][k] == run[k];
      CallPends(run[..i], k);
    }
  }

  lemma EndReturnsChannel(run: seq<Step>, w: WaitId)
    requires Possible(run) && Ended(After(run), w) && Cancel(w) !in run
    ensures OutcomeMatches(After(run).waits[w].phase.outcome, After(run).waits[w].channel)
    ensures After(run).waits[w].phase.outcome != Cancelled
  {
    hide Apply, Enabled;
    RunKeepsInv(run);
    CancelledIff(run, w);
  }

  /** Every reply reaches its ask: a `fulfill` that found an entry sends its own reply to the ask of
      its session inserted last, and that ask holds it for good unless it had been cancelled before
      the send.  Once it ends, and was not cancelled, that reply is what it returns. */
  lemma FulfilDelivers(run: seq<Step>, i: nat, j: nat) returns (w: WaitId)
    requires Possible(run) && i < |run| && j < |run| && run[i].Remove? && run[j] == Send(run[i].c)
    ensures i < j && Possible(run[.. i]) && LatestAsk(run[.. i], run[i].session) == Some(w)
    ensures w in After(run).waits && After(run).waits[w].session == run[i].session
    ensures Possible(run[.. j]) && w in After(run[.. j]).waits
    ensures Ended(After(run[.. j]), w) <==> Cancel(w) in run[.. j]
    ensures Cancel(w) !in run[.. j] ==> After(run).waits[w].channel == Sent(run[i].c, run[i].reply)
    ensures Cancel(w) !in run && Ended(After(run), w) ==> After(run).waits[w].phase.outcome == Reply(run[i].reply)
  {
    hide Apply, Enabled, LatestAsk, Inv;
    SendFollowsRemove(run, i, j);
    PrefixPossible(run, j);
    PrefixPossible(run, j + 1);
    assert run[.. j + 1][..j] == run[..j] && run[..j][..i] == run[..i];
    var s := After(run[..j]);
    RunKeepsInv(run[..j]);
    SendIsOfCall(s, run[i].c);
    FulfilTargetsLatestAsk(run[..j], i);
    CallPends(run[..j], i);
    w := s.calls[run[i].c].sender;
    SendLeaves(s, run[i].c);
    CancelledIff(run[..j], w);
    LatestAskHasSession(run[..i], run[i].session, w);
    WaitIsFixed(run, i, w);
    WaitIsFixed(run, j + 1, w);
    if Cancel(w) !in run && Ended(After(run), w) {
      EndReturnsChannel(run, w);
    }
  }

  /** The insert at `j` found the entry of `w` in the table. */
  ghost predicate ReplacedAt(run: seq<Step>, j: nat, w: WaitId) {
    && j < |run| && run[j].Insert? && Possible(run[..j]) && run[j].w in After(run[..j]).waits
    && w in After(run[..j]).waits && Owns(After(run[..j]), Table, w)
    && After(run[..j]).waits[run[j].w].session == After(run[..j]).waits[w].session
  }

  /** The sender of `w` is being thrown away, or has been. */
  ghost predicate Displaced(s: State, w: WaitId) {
    w in s.waits && (s.waits[w].channel == SenderDropped || exists v :: Owns(s, InHand(v), w))
  }

  lemma StepDisplaces(s: State, step: Step, w: WaitId)
    requires Inv(s) && Enabled(s, step) && Displaced(s, w)
    ensures Displaced(Apply(s, step), w)
  {
    hide GenerationsDistinct, NoLostSender, RepliesTraced, EntriesLive;
    if s.waits[w].channel == SenderDropped {
      DroppedStaysDropped(s, step, w);
    } else {
      hide SendersLinear;
      var v :| Owns(s, InHand(v), w);
      if step.DropReplaced? {
        DropFreesDisplaced(s, step.w, v, w);
      } else {
        HandKeeps(s, step, v, w);
      }
    }
  }

  lemma DroppedStaysDropped(s: State, step: Step, w: WaitId)
    requires SendersLinear(s) && Enabled(s, step) && w in s.waits && s.waits[w].channel == SenderDropped
    ensures w in Apply(s, step).waits && Apply(s, step).waits[w].channel == SenderDropped
  {
    if step.Send? {
      OwnedIsSound(s, InCall(step.c), s.calls[step.c].sender);
    }
    hide SendersLinear;
  }

  lemma HandKeeps(s: State, step: Step, v: WaitId, w: WaitId)
    requires Enabled(s, step) && !step.DropReplaced? && Owns(s, InHand(v), w) && w in s.waits
    ensures Owns(Apply(s, step), InHand(v), w) && w in Apply(s, step).waits
  {
  }

  lemma DropFreesDisplaced(s: State, u: WaitId, v: WaitId, w: WaitId)
    requires Enabled(s, DropReplaced(u)) && Owns(s, InHand(v), w) && w in s.waits
    ensures Displaced(Apply(s, DropReplaced(u)), w)
  {
    if u != v {
      assert Owns(Apply(s, DropReplaced(u)), InHand(v), w);
    }
  }

  /** Whoever holds a displaced sender took it from the table when it inserted its own. */
  lemma {:induction false} HandTookFromTable(run: seq<Step>, v: WaitId, w: WaitId) returns (j: nat)
    requires Possible(run) && Owns(After(run), InHand(v), w)
    ensures ReplacedAt(run, j, w) && run[j] == Insert(v)
  {
    var n := |run| - 1;
    RunKeepsInv(run[..n]);
    var s := After(run[..n]);
    if run[n] == Insert(v) {
      j := n;
      InsertDisplaces(s, v, w);
    } else {
      HandStays(s, run[n], v, w);
      j := HandTookFromTable(run[..n], v, w);
      assert run[..n][..j] == run[..j];
    }
  }

  lemma HandStays(s: State, step: Step, v: WaitId, w: WaitId)
    requires Enabled(s, step) && step != Insert(v) && Owns(Apply(s, step), InHand(v), w)
    ensures Owns(s, InHand(v), w)
  {
  }

  lemma HandDrops(s: State, step: Step, w: WaitId)
    requires Enabled(s, step) && w in Apply(s, step).waits && Apply(s, step).waits[w].channel == SenderDropped
    requires !(w in s.waits && s.waits[w].channel == SenderDropped)
    ensures step.DropReplaced? && Owns(s, InHand(step.w), w)
  {
  }

  lemma {:induction false} DroppedWasReplaced(run: seq<Step>, w: WaitId) returns (j: nat)
    requires Possible(run) && w in After(run).waits && After(run).waits[w].channel == SenderDropped
    ensures ReplacedAt(run, j, w)
  {
    hide Apply, Enabled, Owns;
    var n := |run| - 1;
    var s := After(run[..n]);
    if w in s.waits && s.waits[w].channel == SenderDropped {
      j := DroppedWasReplaced(run[..n], w);
    } else {
      HandDrops(s, run[n], w);
      j := HandTookFromTable(run[..n], run[n].w, w);
    }
    assert run[..n][..j] == run[..j];
  }

  lemma InsertTakes(s: State, v: WaitId, w: WaitId)
    requires Enabled(s, Insert(v)) && w in s.waits && v in s.waits && Owns(s, Table, w)
    requires s.waits[v].session == s.waits[w].session
    ensures Displaced(Apply(s, Insert(v)), w)
  {
    assert Owns(Apply(s, Insert(v)), InHand(v), w);
  }

  lemma {:induction false} ReplacedStaysDisplaced(run: seq<Step>, j: nat, w: WaitId)
    requires Possible(run) && ReplacedAt(run, j, w)
    ensures Displaced(After(run), w)
  {
    hide Apply, Enabled, Owns, Displaced;
    var n := |run| - 1;
    RunKeepsInv(run[..n]);
    if j < n {
      assert run[..n][..j] == run[..j];
      ReplacedStaysDisplaced(run[..n], j, w);
      StepDisplaces(After(run[..n]), run[n], w);
    } else {
      InsertTakes(After(run[..n]), run[n].w, w);
    }
  }

  /** An ask is superseded exactly when it was not cancelled and a later ask of its session found its
      entry in the table; every other ask that ends without being cancelled returns a reply. */
  lemma SupersededIff(run: seq<Step>, w: WaitId)
    requires Possible(run) && Ended(After(run), w)
    ensures After(run).waits[w].phase.outcome == Superseded
            <==> Cancel(w) !in run && exists j :: ReplacedAt(run, j, w)
    ensures After(run).waits[w].phase.outcome.Reply?
            <==> Cancel(w) !in run && !exists j :: ReplacedAt(run, j, w)
  {
    RunKeepsInv(run);
    CancelledIff(run, w);
    if After(run).waits[w].phase.outcome == Superseded {
      var j := DroppedWasReplaced(run, w);
    } else if j :| ReplacedAt(run, j, w) {
      ReplacedStaysDisplaced(run, j, w);
      if v :| Owns(After(run), InHand(v), w) {
        OwnedIsSound(After(run), InHand(v), w);
      }
    }
  }

  /** The later ask of a superseded one came in after it. */
  lemma ReplacementIsLater(run: seq<Step>, j: nat, w: WaitId) returns (i: nat)
    requires Possible(run) && ReplacedAt(run, j, w)
    ensures i < j && run[i] == Insert(w) && run[j].w != w
  {
    RunKeepsInv(run[..j]);
    PrefixPossible(run, j + 1);
    assert run[.. j + 1][..j] == run[..j];
    var session := After(run[..j]).waits[w].session;
    TableShowsLatestAsk(run[..j], session);
    i := LatestWasInserted(run[..j], session, w);
    if run[j].w == w {
      SoleOwner(After(run[..j]), Local, Table, w);
    }
  }

  lemma {:induction false} LatestWasInserted(run: seq<Step>, session: Session, w: WaitId) returns (i: nat)
    requires Possible(run) && LatestAsk(run, session) == Some(w)
    ensures i < |run| && run[i] == Insert(w)
  {
    var n := |run| - 1;
    if LatestAsk(run[..n], session) == Some(w) {
      i := LatestWasInserted(run[..n], session, w);
    } else {
      i := n;
    }
  }

  // ---- An ask can always be put and answered ----------------------------------------------

  /** `s` takes the steps one by one and ends in `t`. */
  ghost predicate Goes(s: State, steps: seq<Step>, t: State)
    decreases |steps|
  {
    if steps == [] then s == t
    else Enabled(s, steps[0]) && Goes(Apply(s, steps[0]), steps[1..], t)
  }

  lemma {:induction false} GoesOn(run: seq<Step>, steps: seq<Step>, t: State)
    requires Possible(run) && Goes(After(run), steps, t)
    ensures Possible(run + steps) && After(run + steps) == t
    decreases |steps|
  {
    hide Apply, Enabled;
    if steps == [] {
      assert run + steps == run;
    } else {
      var next := run + [steps[0]];
      assert next[..|run|] == run;
      GoesOn(next, steps[1..], t);
      assert next + steps[1..] == run + steps;
    }
  }

  /** The steps of an ask that is answered at once. */
  function AnsweredAsk(w: WaitId, c: CallId, session: Session, reply: Message, taken: bool): seq<Step> {
    [Fetch(w, session), Insert(w)] + (if taken then [DropReplaced(w)] else [])
    + [Remove(c, session, reply), Send(c), Wake(w), DropGuard(w)]
  }

  lemma AskGoes(s: State, w: WaitId, session: Session) returns (t: State)
    requires Inv(s) && w !in s.waits
    ensures Goes(s, [Fetch(w, session), Insert(w)] + (if session in s.pending then [DropReplaced(w)] else []), t)
    ensures w in t.waits && t.waits[w].phase == Blocked && t.waits[w].channel == Unsent && t.waits[w].session == session
    ensures session in t.pending && t.pending[session].sender == w && t.calls == s.calls
  {
    var fetched := Apply(s, Fetch(w, session));
    var inserted := Apply(fetched, Insert(w));
    if session in s.pending {
      t := Apply(inserted, DropReplaced(w));
      hide Apply;
      GoesOne(inserted, DropReplaced(w));
      GoesFirst(fetched, Insert(w), [DropReplaced(w)], t);
      GoesFirst(s, Fetch(w, session), [Insert(w)] + [DropReplaced(w)], t);
      assert [Fetch(w, session)] + ([Insert(w)] + [DropReplaced(w)])
             == [Fetch(w, session), Insert(w)] + [DropReplaced(w)];
    } else {
      t := inserted;
      hide Apply;
      GoesOne(fetched, Insert(w));
      GoesFirst(s, Fetch(w, session), [Insert(w)], t);
      assert [Fetch(w, session)] + [Insert(w)] == [Fetch(w, session), Insert(w)] + [];
    }
  }

  lemma AnswerGoes(s: State, w: WaitId, c: CallId, reply: Message) returns (t: State)
    requires w in s.waits && s.waits[w].phase == Blocked && s.waits[w].channel == Unsent && c !in s.calls
    requires s.waits[w].session in s.pending && s.pending[s.waits[w].session].sender == w
    ensures Goes(s, [Remove(c, s.waits[w].session, reply), Send(c), Wake(w), DropGuard(w)], t)
    ensures w in t.waits && t.waits[w].phase == Gone(Reply(reply)) && s.waits[w].session !in t.pending
  {
    var session := s.waits[w].session;
    var removed := Apply(s, Remove(c, session, reply));
    var sent := Apply(removed, Send(c));
    var woken := Apply(sent, Wake(w));
    t := Apply(woken, DropGuard(w));
    hide Apply;
    GoesOne(woken, DropGuard(w));
    GoesFirst(sent, Wake(w), [DropGuard(w)], t);
    GoesFirst(removed, Send(c), [Wake(w), DropGuard(w)], t);
    GoesFirst(s, Remove(c, session, reply), [Send(c), Wake(w), DropGuard(w)], t);
    assert [Remove(c, session, reply)] + [Send(c), Wake(w), DropGuard(w)]
           == [Remove(c, session, reply), Send(c), Wake(w), DropGuard(w)];
    assert [Send(c)] + [Wake(w), DropGuard(w)] == [Send(c), Wake(w), DropGuard(w)];
    assert [Wake(w)] + [DropGuard(w)] == [Wake(w), DropGuard(w)];
  }

  lemma GoesOne(s: State, step: Step)
    requires Enabled(s, step)
    ensures Goes(s, [step], Apply(s, step))
  {
    hide Apply, Enabled;
    assert [step][1..] == [];
  }

  lemma GoesFirst(s: State, step: Step, rest: seq<Step>, t: State)
    requires Enabled(s, step) && Goes(Apply(s, step), rest, t)
    ensures Goes(s, [step] + rest, t)
  {
    hide Apply, Enabled;
    assert ([step] + rest)[1..] == rest;
  }

  lemma {:induction false} GoesBoth(s: State, first: seq<Step>, t: State, second: seq<Step>, u: State)
    requires Goes(s, first, t) && Goes(t, second, u)
    ensures Goes(s, first + second, u)
    decreases |first|
  {
    hide Apply, Enabled;
    if first == [] {
      assert first + second == second;
    } else {
      GoesBoth(Apply(s, first[0]), first[1..], t, second, u);
      assert (first + second)[1..] == first[1..] + second;
    }
  }

  /** At any point of any run a new ask can be put and be answered with any reply: it returns that
      reply and leaves no entry behind. */
  lemma AskCanBeAnswered(run: seq<Step>, w: WaitId, c: CallId, session: Session, reply: Message)
    requires Possible(run) && w !in After(run).waits && c !in After(run).calls
    ensures var all := run + AnsweredAsk(w, c, session, reply, session in After(run).pending);
            && Possible(all) && w in After(all).waits
            && After(all).waits[w].phase == Gone(Reply(reply)) && session !in After(all).pending
  {
    RunKeepsInv(run);
    var taken := session in After(run).pending;
    var first := [Fetch(w, session), Insert(w)] + (if taken then [DropReplaced(w)] else []);
    var second := [Remove(c, session, reply), Send(c), Wake(w), DropGuard(w)];
    hide Apply, Enabled, Inv;
    var t := AskGoes(After(run), w, session);
    var u := AnswerGoes(t, w, c, reply);
    GoesBoth(After(run), first, t, second, u);
    GoesOn(run, first + second, u);
  }

  // ---- The router itself ------------------------------------------------------------------

  /** The shared table with the calls in flight on it; each method is one atomic step. */
  class Router {
    var pending: map<Session, Entry>
    var nextGen: nat
    var waits: map<WaitId, Wait>
    var calls: map<CallId, Call>

    ghost function Now(): State
      reads this
    {
      State(pending, nextGen, waits, calls)
    }

    constructor ()
      ensures Now() == Empty && Inv(Now())
    {
      pending, nextGen, waits, calls := map[], 0, map[], map[];
    }

    method FetchGeneration(w: WaitId, session: Session) returns (generation: nat)
      requires Inv(Now()) && Enabled(Now(), Fetch(w, session))
      modifies this
      ensures Now() == Apply(old(Now()), Fetch(w, session)) && Inv(Now())
      ensures forall v <- old(waits) :: old(waits)[v].generation < generation
    {
      StepKeepsInv(Now(), Fetch(w, session));
      generation := nextGen;
      nextGen := nextGen + 1;
      waits := waits[w := Wait(session, generation, Fetched, Unsent)];
    }

    method InsertPending(w: WaitId) returns (replaced: bool)
      requires Inv(Now()) && Enabled(Now(), Insert(w))
      modifies this
      ensures Now() == Apply(old(Now()), Insert(w)) && Inv(Now())
      ensures replaced <==> old(waits[w].session in pending)
    {
      StepKeepsInv(Now(), Insert(w));
      var session := waits[w].session;
      replaced := session in pending;
      var phase := Blocked;
      if replaced {
        phase := Replacing(pending[session].sender);
      }
      pending := pending[session := Entry(waits[w].generation, w)];
      waits := waits[w := waits[w].(phase := phase)];
    }

    method DropDisplacedSender(w: WaitId)
      requires Inv(Now()) && Enabled(Now(), DropReplaced(w))
      modifies this
      ensures Now() == Apply(old(Now()), DropReplaced(w)) && Inv(Now())
    {
      StepKeepsInv(Now(), DropReplaced(w));
      var displaced := waits[w].phase.displaced;
      waits := waits[displaced := waits[displaced].(channel := SenderDropped)];
      waits := waits[w := waits[w].(phase := Blocked)];
    }

    /** The first half of `fulfill`: its result is decided here. */
    method RemovePending(c: CallId, session: Session, reply: Message) returns (found: bool)
      requires Inv(Now()) && Enabled(Now(), Remove(c, session, reply))
      modifies this
      ensures Now() == Apply(old(Now()), Remove(c, session, reply)) && Inv(Now())
      ensures found <==> old(session in pending)
      ensures found <==> calls[c].ReturnsTrue()
    {
      StepKeepsInv(Now(), Remove(c, session, reply));
      found := session in pending;
      if found {
        calls := calls[c := Sending(pending[session].sender, reply)];
        pending := pending - {session};
      } else {
        calls := calls[c := Done(None)];
      }
    }

    method SendReply(c: CallId)
      requires Inv(Now()) && Enabled(Now(), Send(c))
      modifies this
      ensures Now() == Apply(old(Now()), Send(c)) && Inv(Now())
      ensures old(calls[c].sender) in waits
      ensures waits[old(calls[c].sender)].channel
              == if old(EndedCancelled(Now(), calls[c].sender)) then Unsent else Sent(c, old(calls[c].reply))
    {
      SendLeaves(Now(), c);
      StepKeepsInv(Now(), Send(c));
      var Sending(w, reply) := calls[c];
      calls := calls[c := Done(Some(w))];
      if !waits[w].phase.Leaving? && !waits[w].phase.Gone? {
        waits := waits[w := waits[w].(channel := Sent(c, reply))];
      }
    }

    method Awake(w: WaitId) returns (outcome: Outcome)
      requires Inv(Now()) && Enabled(Now(), Wake(w))
      modifies this
      ensures Now() == Apply(old(Now()), Wake(w)) && Inv(Now())
      ensures OutcomeMatches(outcome, waits[w].channel) && !outcome.Cancelled?
    {
      StepKeepsInv(Now(), Wake(w));
      outcome := if waits[w].channel.Sent? then Reply(waits[w].channel.reply) else Superseded;
      waits := waits[w := waits[w].(phase := Leaving(outcome))];
    }

    method CancelWait(w: WaitId)
      requires Inv(Now()) && Enabled(Now(), Cancel(w))
      modifies this
      ensures Now() == Apply(old(Now()), Cancel(w)) && Inv(Now())
    {
      StepKeepsInv(Now(), Cancel(w));
      waits := waits[w := waits[w].(phase := Leaving(Cancelled))];
    }

    method DropPendingGuard(w: WaitId)
      requires Inv(Now()) && Enabled(Now(), DropGuard(w))
      modifies this
      ensures Now() == Apply(old(Now()), DropGuard(w)) && Inv(Now())
    {
      StepKeepsInv(Now(), DropGuard(w));
      var Wait(session, generation, phase, _) := waits[w];
      if session in pending && pending[session].generation == generation {
        pending := pending - {session};
      }
      waits := waits[w := waits[w].(phase := Gone(phase.outcome))];
    }
  }
}
