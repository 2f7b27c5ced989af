/** The user generator of the mixed workload: users are created, parked between rounds in a queue,
    and counted per round when they enter and when they leave it. */
module Mix {
  import opened Sums

  datatype User = User(id: nat, currentRound: nat, totalRounds: nat, start: real)

  /** The generator's state: all users ever created, the queue of their ids, and the per-round
      `[tokens, requests]` statistics. */
  datatype Gen = Gen(users: seq<User>, queue: seq<nat>, inputTokens: seq<int>, inputCount: seq<int>,
                     outputTokens: seq<int>, outputCount: seq<int>, userStats: seq<int>)

  ghost predicate Shaped(g: Gen, rounds: nat) {
    && |g.inputTokens| == |g.inputCount| == |g.outputTokens| == |g.outputCount| == |g.userStats| == rounds
    && (forall i :: 0 <= i < |g.users| ==> g.users[i].id == i && 1 <= g.users[i].totalRounds <= rounds)
    && (forall i :: 0 <= i < |g.queue| ==> g.queue[i] < |g.users|)
  }

  function Fresh(rounds: nat): Gen {
    var zeros := seq(rounds, _ => 0);
    Gen([], [], zeros, zeros, zeros, zeros, zeros)
  }

  /** The number of rounds drawn from the cumulative ratios: one more than the index of the first
      ratio above the drawn value, or all rounds if there is none. */
  function RoundsFor(cumulative: seq<int>, drawn: int): (i: nat)
    requires cumulative != []
    ensures 1 <= i <= |cumulative|
    ensures forall j :: 0 <= j < i - 1 ==> drawn >= cumulative[j]
    ensures i < |cumulative| ==> drawn < cumulative[i - 1]
  {
    if drawn < cumulative[0] || |cumulative| == 1 then 1 else 1 + RoundsFor(cumulative[1..], drawn)
  }

  function Bump(xs: seq<int>, i: nat, amount: int): seq<int>
    requires i < |xs|
  {
    xs[i := xs[i] + amount]
  }

  /** `gen`: a new user in round 0. */
  function Generate(g: Gen, cumulative: seq<int>, drawn: int, promptLen: int): Gen
    requires cumulative != [] && Shaped(g, |cumulative|)
  {
    var total := RoundsFor(cumulative, drawn);
    g.(users := g.users + [User(|g.users|, 0, total, 0.0)],
       inputTokens := Bump(g.inputTokens, 0, promptLen), inputCount := Bump(g.inputCount, 0, 1),
       userStats := Bump(g.userStats, total - 1, 1))
  }

  /** The index `push` inserts at: where the scan stopped, which is the last element's index when
      nothing starts later. */
  function InsertAt(queue: seq<nat>, users: seq<User>, start: real): (idx: nat)
    requires forall i :: 0 <= i < |queue| ==> queue[i] < |users|
    ensures queue == [] ==> idx == 0
    ensures queue != [] ==> idx < |queue|
    ensures forall j :: 0 <= j < idx ==> start >= users[queue[j]].start
    ensures queue != [] && idx < |queue| - 1 ==> start < users[queue[idx]].start
  {
    if |queue| <= 1 || start < users[queue[0]].start then 0 else 1 + InsertAt(queue[1..], users, start)
  }

  function Inserted(queue: seq<nat>, idx: nat, u: nat): seq<nat>
    requires idx <= |queue|
  {
    queue[..idx] + [u] + queue[idx..]
  }

  /** `push` of user `u` after a response of `outTokens` tokens. */
  function Push(g: Gen, rounds: nat, u: nat, outTokens: int, promptLen: int, start: real): Gen
    requires Shaped(g, rounds) && u < |g.users| && g.users[u].currentRound < g.users[u].totalRounds
  {
    var user := g.users[u];
    var r := user.currentRound;
    var g' := g.(outputTokens := Bump(g.outputTokens, r, outTokens), outputCount := Bump(g.outputCount, r, 1));
    if r + 1 >= user.totalRounds then
      g'.(users := g.users[u := user.(currentRound := r + 1)])
    else
      var users := g.users[u := user.(currentRound := r + 1, start := start)];
      g'.(users := users,
          inputTokens := Bump(g.inputTokens, r + 1, promptLen), inputCount := Bump(g.inputCount, r + 1, 1),
          queue := Inserted(g.queue, InsertAt(g.queue, users, start), u))
  }

  /** `pop` at time `now` takes the head of the queue only once its start time has passed. */
  predicate HeadIsDue(g: Gen, rounds: nat, now: real)
    requires Shaped(g, rounds)
  {
    g.queue != [] && now > g.users[g.queue[0]].start
  }

  // ----- Round accounting -----

  /** How many of the first `n` users are held at round `r`: created, not through, and in that round. */
  function HeldAt(users: seq<User>, r: nat, n: nat): nat
    requires n <= |users|
  {
    if n == 0 then 0
    else HeldAt(users, r, n - 1) + (if users[n - 1].currentRound == r < users[n - 1].totalRounds then 1 else 0)
  }

  lemma {:induction false} HeldAgree(a: seq<User>, b: seq<User>, r: nat, n: nat)
    requires n <= |a| && n <= |b| && forall i :: 0 <= i < n ==> a[i] == b[i]
    ensures HeldAt(a, r, n) == HeldAt(b, r, n)
  {
    if n > 0 { HeldAgree(a, b, r, n - 1); }
  }

  function Here(user: User, r: nat): nat {
    if user.currentRound == r < user.totalRounds then 1 else 0
  }

  lemma {:induction false} HeldUpdate(users: seq<User>, u: nat, user: User, r: nat, n: nat)
    requires u < n <= |users|
    ensures HeldAt(users[u := user], r, n) == HeldAt(users, r, n) - Here(users[u], r) + Here(user, r)
  {
    if u == n - 1 {
      HeldAgree(users, users[u := user], r, n - 1);
    } else {
      HeldUpdate(users, u, user, r, n - 1);
    }
  }

  /** The books balance: requests entered minus requests answered is the number of users held. */
  ghost predicate Balanced(g: Gen, rounds: nat)
    requires Shaped(g, rounds)
  {
    && (forall r :: 0 <= r < rounds ==> g.inputCount[r] - g.outputCount[r] == HeldAt(g.users, r, |g.users|))
    && Sum(g.userStats) == |g.users|
  }

  lemma FreshBalanced(rounds: nat)
    ensures Shaped(Fresh(rounds), rounds) && Balanced(Fresh(rounds), rounds)
  {
    SumConstant(Fresh(rounds).userStats, 0);
  }

  lemma GenerateBalanced(g: Gen, cumulative: seq<int>, drawn: int, promptLen: int)
    requires cumulative != [] && Shaped(g, |cumulative|) && Balanced(g, |cumulative|)
    ensures var g' := Generate(g, cumulative, drawn, promptLen); Shaped(g', |cumulative|) && Balanced(g', |cumulative|)
  {
    var g' := Generate(g, cumulative, drawn, promptLen);
    var n, total := |g.users|, RoundsFor(cumulative, drawn);
    forall r | 0 <= r < |cumulative| ensures g'.inputCount[r] - g'.outputCount[r] == HeldAt(g'.users, r, n + 1) {
      HeldAgree(g.users, g'.users, r, n);
      assert g.inputCount[r] - g.outputCount[r] == HeldAt(g.users, r, n);
    }
    SumUpdate(g.userStats, total - 1, g.userStats[total - 1] + 1);
  }

  lemma PushBalanced(g: Gen, rounds: nat, u: nat, outTokens: int, promptLen: int, start: real)
    requires Shaped(g, rounds) && Balanced(g, rounds) && u < |g.users|
    requires g.users[u].currentRound < g.users[u].totalRounds
    ensures var g' := Push(g, rounds, u, outTokens, promptLen, start); Shaped(g', rounds) && Balanced(g', rounds)
  {
    var g' := Push(g, rounds, u, outTokens, promptLen, start);
    forall r | 0 <= r < rounds ensures g'.inputCount[r] - g'.outputCount[r] == HeldAt(g'.users, r, |g.users|) {
      HeldUpdate(g.users, u, g'.users[u], r, |g.users|);
      assert g.inputCount[r] - g.outputCount[r] == HeldAt(g.users, r, |g.users|);
    }
  }

  // ----- Order of the queue -----

  ghost predicate Sorted(times: seq<real>) {
    forall i, j :: 0 <= i < j < |times| ==> times[i] <= times[j]
  }

  /** The start times along the queue. */
  ghost function Starts(queue: seq<nat>, users: seq<User>): (times: seq<real>)
    requires forall i :: 0 <= i < |queue| ==> queue[i] < |users|
  {
    seq(|queue|, i requires 0 <= i < |queue| => users[queue[i]].start)
  }

  lemma SortedInsert(times: seq<real>, idx: nat, t: real)
    requires Sorted(times) && idx <= |times|
    requires forall k :: 0 <= k < idx ==> times[k] <= t
    ensures Sorted(times[..idx] + [t] + times[idx..]) <==> idx == |times| || t <= times[idx]
  {
    var all := times[..idx] + [t] + times[idx..];
    assert all[idx] == t;
    assert forall k :: idx <= k < |times| ==> all[k + 1] == times[k];
    if idx < |times| && t <= times[idx] {
      forall i, j | 0 <= i < j < |all| ensures all[i] <= all[j] {
        assert i < idx ==> all[i] == times[i];
        assert i > idx ==> all[i] == times[i - 1];
        assert j < idx ==> all[j] == times[j];
        assert j > idx ==> all[j] == times[j - 1];
      }
    }
  }

  lemma StartsInserted(queue: seq<nat>, users: seq<User>, idx: nat, u: nat)
    requires (forall i :: 0 <= i < |queue| ==> queue[i] < |users|) && u < |users| && idx <= |queue|
    ensures forall i :: 0 <= i < |queue| + 1 ==> Inserted(queue, idx, u)[i] < |users|
    ensures Starts(Inserted(queue, idx, u), users)
         == Starts(queue, users)[..idx] + [users[u].start] + Starts(queue, users)[idx..]
  {
    var q, times := Inserted(queue, idx, u), Starts(queue, users);
    forall i | 0 <= i < |q|
      ensures q[i] < |users| && users[q[i]].start == (times[..idx] + [users[u].start] + times[idx..])[i]
    {
      if i < idx { assert q[i] == queue[i]; } else if i > idx { assert q[i] == queue[i - 1]; }
    }
  }

  /** The queue is not a priority queue.  An insertion keeps it ordered by start time if and only if
      it was empty or the new start is not after the last one; a later start lands one place early. */
  lemma InsertionOrderExact(queue: seq<nat>, users: seq<User>, u: nat)
    requires (forall i :: 0 <= i < |queue| ==> queue[i] < |users|) && u < |users| && Sorted(Starts(queue, users))
    ensures var q := Inserted(queue, InsertAt(queue, users, users[u].start), u);
            && (forall i :: 0 <= i < |q| ==> q[i] < |users|)
            && (Sorted(Starts(q, users)) <==> queue == [] || users[u].start <= users[queue[|queue| - 1]].start)
  {
    var idx, times := InsertAt(queue, users, users[u].start), Starts(queue, users);
    StartsInserted(queue, users, idx, u);
    assert forall k :: 0 <= k < |queue| ==> times[k] == users[queue[k]].start;
    SortedInsert(times, idx, users[u].start);
  }

  /** `UserGenerator`.  Random draws, sampled prompt lengths and the clock are parameters. */
  class UserGenerator {
    const cumulativeRatios: seq<int>
    var users: seq<User>
    var multiturnQueue: seq<nat>
    var inputTokens: seq<int>
    var inputCount: seq<int>
    var outputTokens: seq<int>
    var outputCount: seq<int>
    var userStats: seq<int>

    ghost function View(): Gen
      reads this
    {
      Gen(users, multiturnQueue, inputTokens, inputCount, outputTokens, outputCount, userStats)
    }

    ghost predicate Valid()
      reads this
    {
      cumulativeRatios != [] && Shaped(View(), |cumulativeRatios|) && Balanced(View(), |cumulativeRatios|)
    }

    constructor (cumulativeRatios: seq<int>)
      requires cumulativeRatios != []
      ensures Valid() && View() == Fresh(|cumulativeRatios|)
    {
      this.cumulativeRatios := cumulativeRatios;
      var zeros := seq(|cumulativeRatios|, _ => 0);
      users, multiturnQueue := [], [];
      inputTokens, inputCount, outputTokens, outputCount, userStats := zeros, zeros, zeros, zeros, zeros;
      FreshBalanced(|cumulativeRatios|);
    }

    method DrawRounds(drawn: int) returns (i: nat)
      requires cumulativeRatios != []
      ensures i == RoundsFor(cumulativeRatios, drawn)
    {
      i := |cumulativeRatios|;
      var idx := 0;
      while idx < |cumulativeRatios|
        invariant idx <= |cumulativeRatios| && i == |cumulativeRatios|
        invariant forall j :: 0 <= j < idx ==> drawn >= cumulativeRatios[j]
      {
        if drawn < cumulativeRatios[idx] {
          i := idx + 1;
          break;
        }
        idx := idx + 1;
      }
    }

    /** `gen`, called with the lock held. */
    method GenUser(drawn: int, promptLen: int) returns (u: nat)
      requires Valid()
      modifies this
      ensures Valid() && View() == Generate(old(View()), cumulativeRatios, drawn, promptLen) && u == |old(users)|
    {
      GenerateBalanced(View(), cumulativeRatios, drawn, promptLen);
      u := |users|;
      var total := DrawRounds(drawn);
      inputTokens := Bump(inputTokens, 0, promptLen);
      inputCount := Bump(inputCount, 0, 1);
      users := users + [User(u, 0, total, 0.0)];
      userStats := Bump(userStats, total - 1, 1);
    }

    /** `pop`: a due queued user, otherwise a new one.  No queued user leaves before its start time. */
    method PopUser(now: real, drawn: int, promptLen: int) returns (u: nat)
      requires Valid()
      modifies this
      ensures Valid()
      ensures if HeadIsDue(old(View()), |cumulativeRatios|, now)
              then && u == old(multiturnQueue)[0] && now > old(users)[u].start
                   && View() == old(View()).(queue := old(multiturnQueue)[1..])
              else u == |old(users)| && View() == Generate(old(View()), cumulativeRatios, drawn, promptLen)
    {
      if |multiturnQueue| > 0 && now > users[multiturnQueue[0]].start {
        u := multiturnQueue[0];
        multiturnQueue := multiturnQueue[1..];
      } else {
        u := GenUser(drawn, promptLen);
      }
    }

    /** `push`, after the response of user `u` with `lenItl` inter-token gaps. */
    method PushUser(u: nat, lenItl: nat, promptLen: int, start: real)
      requires Valid() && u < |users| && users[u].currentRound < users[u].totalRounds
      modifies this
      ensures Valid() && View() == Push(old(View()), |cumulativeRatios|, u, lenItl + 1, promptLen, start)
    {
      ghost var g := View();
      var r := users[u].currentRound;
      outputTokens := Bump(outputTokens, r, lenItl + 1);
      outputCount := Bump(outputCount, r, 1);
      if r + 1 >= users[u].totalRounds {
        users := users[u := users[u].(currentRound := r + 1)];
        PushBalanced(g, |cumulativeRatios|, u, lenItl + 1, promptLen, start);
        return;
      }
      users := users[u := users[u].(currentRound := r + 1, start := start)];
      inputTokens := Bump(inputTokens, r + 1, promptLen);
      inputCount := Bump(inputCount, r + 1, 1);
      var idx := ScanQueue(start);
      multiturnQueue := multiturnQueue[..idx] + [u] + multiturnQueue[idx..];
      PushBalanced(g, |cumulativeRatios|, u, lenItl + 1, promptLen, start);
    }

    /** The loop of `push`; its variable keeps the last index visited. */
    method ScanQueue(start: real) returns (idx: nat)
      requires forall i :: 0 <= i < |multiturnQueue| ==> multiturnQueue[i] < |users|
      ensures idx == InsertAt(multiturnQueue, users, start)
    {
      idx := 0;
      var k := 0;
      while k < |multiturnQueue|
        invariant k <= |multiturnQueue| && idx == if k == 0 then 0 else k - 1
        invariant forall j :: 0 <= j < k ==> start >= users[multiturnQueue[j]].start
      {
        idx := k;
        if start < users[multiturnQueue[k]].start { break; }
        k := k + 1;
      }
    }
  }

}
