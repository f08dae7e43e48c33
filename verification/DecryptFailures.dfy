/** Consecutive decrypt failures per peer: the session is reset at every third one in a row. */
module DecryptFailures {

  const RESET_AFTER := 3

  /** One decrypt attempt for a peer and whether it succeeded. */
  datatype Attempt = Attempt(peer: string, ok: bool)

  /** Failures of `peer` since its last success, ignoring the other peers. */
  function Streak(history: seq<Attempt>, peer: string): nat {
    if history == [] then 0
    else
      var a, before := history[|history| - 1], Streak(history[..|history| - 1], peer);
      if a.peer != peer then before else if a.ok then 0 else before + 1
  }

  /** What the shared counter map holds after a history: the streak modulo three, absent at 0. */
  ghost predicate Counts(failureCounts: map<string, nat>, history: seq<Attempt>) {
    forall peer :: Streak(history, peer) % RESET_AFTER == if peer in failureCounts then failureCounts[peer] else 0
  }

  /** The reset is due for the last attempt: it failed and made the streak a multiple of three. */
  predicate ResetDue(history: seq<Attempt>) {
    history != [] && !history[|history| - 1].ok && Streak(history, history[|history| - 1].peer) % RESET_AFTER == 0
  }

  class PeerSessions {
    var failureCounts: map<string, nat>

    constructor ()
      ensures Counts(failureCounts, [])
    {
      failureCounts := map[];
    }

    /** Bookkeeping of one decrypt outcome; `reset` says whether the session is deleted and re-established. */
    method Decrypted(a: Attempt, ghost history: seq<Attempt>) returns (reset: bool)
      requires Counts(failureCounts, history)
      modifies this
      ensures Counts(failureCounts, history + [a])
      ensures reset == ResetDue(history + [a])
    {
      StreakSnoc(history, a);
      reset := false;
      if a.ok {
        failureCounts := failureCounts - {a.peer};
      } else {
        var count := (if a.peer in failureCounts then failureCounts[a.peer] else 0) + 1;
        NextResidue(Streak(history, a.peer));
        failureCounts := failureCounts[a.peer := count];
        if count >= RESET_AFTER {
          failureCounts := failureCounts - {a.peer};
          reset := true;
        }
      }
    }

    /** Over any interleaved run: every peer's count is its trailing failures modulo three, and resets
        happen at exactly every third consecutive failure of a peer. */
    method DecryptAll(attempts: seq<Attempt>) returns (resets: seq<bool>)
      requires failureCounts == map[]
      modifies this
      ensures Counts(failureCounts, attempts)
      ensures |resets| == |attempts|
      ensures forall i :: 0 <= i < |attempts| ==> resets[i] == ResetDue(attempts[..i + 1])
    {
      resets := [];
      for i := 0 to |attempts|
        invariant |resets| == i && Counts(failureCounts, attempts[..i])
        invariant forall j :: 0 <= j < i ==> resets[j] == ResetDue(attempts[..j + 1])
      {
        assert attempts[..i + 1] == attempts[..i] + [attempts[i]];
        var reset := Decrypted(attempts[i], attempts[..i]);
        resets := resets + [reset];
      }
      assert attempts[..|attempts|] == attempts;
    }
  }

  lemma StreakSnoc(history: seq<Attempt>, a: Attempt)
    ensures forall peer :: Streak(history + [a], peer) ==
              if a.peer != peer then Streak(history, peer) else if a.ok then 0 else Streak(history, peer) + 1
  {
    assert (history + [a])[..|history|] == history;
  }

  lemma NextResidue(n: nat)
    ensures (n + 1) % RESET_AFTER == if n % RESET_AFTER == RESET_AFTER - 1 then 0 else n % RESET_AFTER + 1
  {
  }

  /** Peers are independent: a peer's streak is the streak of its own attempts alone. */
  lemma {:induction false} StreakIgnoresOthers(history: seq<Attempt>, peer: string)
    ensures Streak(history, peer) == Streak(OwnAttempts(history, peer), peer)
  {
    if history != [] {
      StreakIgnoresOthers(history[..|history| - 1], peer);
      var own := OwnAttempts(history[..|history| - 1], peer);
      assert (own + [history[|history| - 1]])[..|own|] == own;
    }
  }

  function OwnAttempts(history: seq<Attempt>, peer: string): seq<Attempt> {
    if history == [] then []
    else
      var own := OwnAttempts(history[..|history| - 1], peer);
      if history[|history| - 1].peer == peer then own + [history[|history| - 1]] else own
  }

  /** With the peer's own attempts ending in `n` failures, the first of them or right after a success, the last
      one resets the session if and only if it is the third, the sixth, and so on. */
  lemma ResetAtEveryThird(history: seq<Attempt>, n: nat)
    requires history != [] && n > 0
    requires var own := OwnAttempts(history, history[|history| - 1].peer);
             && n <= |own| && (forall i :: |own| - n <= i < |own| ==> !own[i].ok)
             && (n < |own| ==> own[|own| - n - 1].ok)
    ensures ResetDue(history) <==> n % 3 == 0
  {
    var peer := history[|history| - 1].peer;
    var own := OwnAttempts(history, peer);
    StreakIsConsecutive(history, peer);
    assert own[|own| - 1] == history[|history| - 1];
    assert Streak(history, peer) == n;
  }

  /** A peer's streak is the longest run of failures its own attempts end with. */
  lemma {:induction false} StreakIsConsecutive(history: seq<Attempt>, peer: string)
    ensures var own := OwnAttempts(history, peer);
            Streak(history, peer) <= |own|
            && (forall i :: |own| - Streak(history, peer) <= i < |own| ==> !own[i].ok)
            && (Streak(history, peer) < |own| ==> own[|own| - Streak(history, peer) - 1].ok)
  {
    if history != [] { StreakIsConsecutive(history[..|history| - 1], peer); }
  }
}
