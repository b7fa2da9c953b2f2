/** How much of a sub-agent's inbox one round may inject (src/agents/delegation.rs,
    `select_within_injection_budget`).  The token estimate of a rendered message is a given. */
module InboxBudget {

  const BUDGET := 2048

  datatype Mail = Mail(text: string, tokens: nat)

  /** A message costs its rendering and a separator. */
  function Cost(m: Mail): nat { m.tokens + 1 }

  function Total(mails: seq<Mail>): nat {
    if mails == [] then 0 else Cost(mails[0]) + Total(mails[1..])
  }

  function Tokens(mails: seq<Mail>): nat {
    if mails == [] then 0 else mails[0].tokens + Tokens(mails[1..])
  }

  /** A round's cost: every message's tokens, and one for each message. */
  lemma {:induction false} TotalIs(mails: seq<Mail>)
    ensures Total(mails) == Tokens(mails) + |mails|
  {
    if mails != [] {
      TotalIs(mails[1..]);
    }
  }

  lemma {:induction false} TokensConcat(a: seq<Mail>, b: seq<Mail>)
    ensures Tokens(a + b) == Tokens(a) + Tokens(b)
  {
    if a == [] {
      assert a + b == b;
    } else {
      assert (a + b)[1..] == a[1..] + b;
      TokensConcat(a[1..], b);
    }
  }

  /** In tokens and separators: what is kept is a single message or fits, and the next one would not. */
  lemma FitInTokens(mails: seq<Mail>, start: nat)
    requires LongestFit(mails, start)
    ensures var kept := mails[start..];
            && (|kept| == 1 || Tokens(kept) + |kept| <= 2048)
            && (start > 0 ==> Tokens(kept) + mails[start - 1].tokens + |kept| + 1 > 2048)
  {
    TotalIs(mails[start..]);
    if start > 0 {
      TotalIs(mails[start - 1..]);
      assert mails[start - 1..] == [mails[start - 1]] + mails[start..];
      TokensConcat([mails[start - 1]], mails[start..]);
      assert Total(mails[start - 1..]) > BUDGET;
    }
  }

  /** `kept` is the longest suffix within the budget, or else the newest message alone. */
  ghost predicate LongestFit(mails: seq<Mail>, start: nat) {
    && start <= |mails|
    && (mails != [] ==> start < |mails|)
    && (Total(mails[start..]) <= BUDGET || start + 1 == |mails|)
    && (forall i | 0 <= i < start :: Total(mails[i..]) > BUDGET)
  }

  lemma {:induction false} TotalGrows(mails: seq<Mail>, i: nat, j: nat)
    requires i <= j <= |mails|
    ensures Total(mails[i..]) >= Total(mails[j..])
    decreases j - i
  {
    if i < j {
      TotalGrows(mails, i + 1, j);
      assert mails[i..][1..] == mails[i + 1..];
    }
  }

  method SelectWithinBudget(mails: seq<Mail>) returns (kept: seq<Mail>, deferred: seq<Mail>)
    ensures deferred + kept == mails && (mails != [] ==> kept != [])
    ensures LongestFit(mails, |deferred|)
    ensures |kept| == 1 || Tokens(kept) + |kept| <= 2048
    ensures deferred != [] ==> Tokens(kept) + deferred[|deferred| - 1].tokens + |kept| + 1 > 2048
  {
    var keptStart, total := |mails|, 0;
    var i := |mails|;
    while i > 0
      invariant 0 <= i == keptStart <= |mails|
      invariant total == Total(mails[keptStart..])
      invariant total <= BUDGET || keptStart + 1 == |mails|
    {
      var cost := Cost(mails[i - 1]);
      assert mails[i - 1..][1..] == mails[i..];
      if total + cost > BUDGET && keptStart < |mails| {
        break;
      }
      total := total + cost;
      keptStart := i - 1;
      i := i - 1;
    }
    kept, deferred := mails[keptStart..], mails[..keptStart];
    if keptStart > 0 {
      assert mails[keptStart - 1..][1..] == mails[keptStart..];
      forall j | 0 <= j < keptStart
        ensures Total(mails[j..]) > BUDGET
      {
        TotalGrows(mails, j, keptStart - 1);
      }
    }
    FitInTokens(mails, keptStart);
  }

  lemma LongestFitUnique(mails: seq<Mail>, a: nat, b: nat)
    requires LongestFit(mails, a) && LongestFit(mails, b)
    ensures a == b
  {
  }

  // ---- Rounds -----------------------------------------------------------------------------------

  /** `batches` is what successive rounds inject when what is deferred is fed back and no mail comes in. */
  ghost predicate Rounds(mails: seq<Mail>, batches: seq<seq<Mail>>) {
    if mails == [] then batches == []
    else
      && batches != []
      && exists start | 0 <= start <= |mails| ::
           LongestFit(mails, start) && batches[0] == mails[start..] && Rounds(mails[..start], batches[1..])
  }

  /** The rounds of one inbox: each injects what fits and feeds the rest back. */
  method DeliverAll(mails: seq<Mail>) returns (batches: seq<seq<Mail>>)
    ensures Rounds(mails, batches)
  {
    hide LongestFit;
    if mails == [] {
      return [];
    }
    var kept, deferred := SelectWithinBudget(mails);
    var start := |deferred|;
    assert kept == mails[start..] && deferred == mails[..start];
    FitShrinks(mails, start);
    var later := DeliverAll(deferred);
    batches := [kept] + later;
    assert batches[1..] == later;
  }

  lemma FitShrinks(mails: seq<Mail>, start: nat)
    requires LongestFit(mails, start) && mails != []
    ensures start < |mails|
  {
  }

  lemma {:induction false} RoundsUnique(mails: seq<Mail>, a: seq<seq<Mail>>, b: seq<seq<Mail>>)
    requires Rounds(mails, a) && Rounds(mails, b)
    ensures a == b
  {
    hide Rounds, LongestFit, Fits;
    if mails == [] {
      NoRounds(a);
      NoRounds(b);
    } else {
      var i := RoundsSplit(mails, a);
      var j := RoundsSplit(mails, b);
      LongestFitUnique(mails, i, j);
      RoundsUnique(mails[..i], a[1..], b[1..]);
      assert a == [a[0]] + a[1..] && b == [b[0]] + b[1..];
    }
  }

  lemma NoRounds(batches: seq<seq<Mail>>)
    requires Rounds([], batches)
    ensures batches == []
  {
  }

  /** The batches put back together, the first one injected being the newest. */
  function Rejoined(batches: seq<seq<Mail>>): seq<Mail> {
    if batches == [] then [] else Rejoined(batches[1..]) + batches[0]
  }

  /** One round's batch: something, and within the budget unless it is a single message. */
  predicate Fits(batch: seq<Mail>) {
    batch != [] && (Total(batch) <= BUDGET || |batch| == 1)
  }

  lemma RoundsSplit(mails: seq<Mail>, batches: seq<seq<Mail>>) returns (start: nat)
    requires Rounds(mails, batches) && mails != []
    ensures batches != [] && start < |mails| && batches[0] == mails[start..]
    ensures LongestFit(mails, start) && Fits(batches[0]) && Rounds(mails[.. start], batches[1..])
  {
    start :| 0 <= start <= |mails| && LongestFit(mails, start) && batches[0] == mails[start..]
      && Rounds(mails[..start], batches[1..]);
  }

  /** Every message is delivered exactly once, in at most as many rounds as messages, and each round
      injects something that fits. */
  lemma {:induction false} RoundsDeliverAll(mails: seq<Mail>, batches: seq<seq<Mail>>)
    requires Rounds(mails, batches)
    ensures Rejoined(batches) == mails && |batches| <= |mails|
    ensures forall i | 0 <= i < |batches| :: Fits(batches[i])
  {
    if mails != [] {
      hide LongestFit, Fits, Total;
      var start := RoundsSplit(mails, batches);
      hide Rounds;
      RoundsDeliverAll(mails[..start], batches[1..]);
      JoinRound(mails, start, batches);
    }
  }

  lemma JoinRound(mails: seq<Mail>, start: nat, batches: seq<seq<Mail>>)
    requires batches != [] && start < |mails| && batches[0] == mails[start..] && Fits(batches[0])
    requires Rejoined(batches[1..]) == mails[..start] && |batches[1..]| <= start
    requires forall i | 0 <= i < |batches[1..]| :: Fits(batches[1..][i])
    ensures Rejoined(batches) == mails && |batches| <= |mails|
    ensures forall i | 0 <= i < |batches| :: Fits(batches[i])
  {
    hide Fits;
    assert mails == mails[..start] + batches[0];
    assert forall i | 0 < i < |batches| :: batches[i] == batches[1..][i - 1];
  }
}
