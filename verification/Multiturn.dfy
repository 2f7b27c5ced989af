/** The multi-turn workload generator: a sender thread that starts requests, an event loop that
    finishes them, and a response handler that extends histories and releases the next round.
    Requests carry the client's history by reference, so a request is just a client id. */
module Multiturn {
  import opened Sums

  /** `clients` have `total[c]` rounds each, all between 1 and `maxRounds`. */
  datatype Config = Config(total: seq<nat>, maxRounds: nat, barrier: bool, fifo: bool, maxParallel: int)

  ghost predicate ValidConfig(cfg: Config) {
    forall c :: 0 <= c < |cfg.total| ==> 1 <= cfg.total[c] <= cfg.maxRounds
  }

  // ----- Round counts -----

  /** `clients_per_round[r]`: how many of the first `n` clients take part in round `r`. */
  function Participants(total: seq<nat>, r: nat, n: nat): nat
    requires n <= |total|
  {
    if n == 0 then 0 else Participants(total, r, n - 1) + (if total[n - 1] > r then 1 else 0)
  }

  function PerRound(total: seq<nat>, rounds: nat): seq<int> {
    seq(rounds, r requires r >= 0 => Participants(total, r, |total|))
  }

  lemma {:induction false} PerRoundSnoc(total: seq<nat>, rounds: nat, t: nat)
    requires t <= rounds
    ensures Sum(PerRound(total + [t], rounds)) == Sum(PerRound(total, rounds)) + t
  {
    PrefixRounds(total, rounds, t, rounds);
  }

  lemma {:induction false} ParticipantsAgree(a: seq<nat>, b: seq<nat>, r: nat, n: nat)
    requires n <= |a| && n <= |b| && a[..n] == b[..n]
    ensures Participants(a, r, n) == Participants(b, r, n)
  {
    if n > 0 {
      assert a[..n - 1] == a[..n][..n - 1] && b[..n - 1] == b[..n][..n - 1];
      assert a[n - 1] == a[..n][n - 1] && b[n - 1] == b[..n][n - 1];
      ParticipantsAgree(a, b, r, n - 1);
    }
  }

  lemma {:induction false} PrefixRounds(total: seq<nat>, rounds: nat, t: nat, k: nat)
    requires k <= rounds
    ensures Sum(PerRound(total + [t], k)) == Sum(PerRound(total, k)) + (if t < k then t else k)
  {
    if k > 0 {
      PrefixRounds(total, rounds, t, k - 1);
      var a, b := PerRound(total + [t], k), PerRound(total, k);
      assert a[..k - 1] == PerRound(total + [t], k - 1) && b[..k - 1] == PerRound(total, k - 1);
      assert (total + [t])[..|total|] == total[..|total|];
      ParticipantsAgree(total + [t], total, k - 1, |total|);
    }
  }

  /** Counting requests round by round or client by client gives the same number: the sum of
      `clients_per_round` is `total_requests`. */
  lemma {:induction false} RequestsCountedTwice(total: seq<nat>, rounds: nat)
    requires forall c :: 0 <= c < |total| ==> total[c] <= rounds
    ensures Sum(PerRound(total, rounds)) == Sum(total)
  {
    if total == [] {
      SumConstant(PerRound(total, rounds), 0);
    } else {
      var init, t := total[..|total| - 1], total[|total| - 1];
      RequestsCountedTwice(init, rounds);
      PerRoundSnoc(init, rounds, t);
      assert total == init + [t];
    }
  }
}
