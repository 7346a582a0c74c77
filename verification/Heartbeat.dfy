// The timing of heartbeatLoop and checkClientTimeouts (src/Server/Server.cpp), with
// ideal sleeps and no processing time. Times are nanoseconds of the steady clock.
module Heartbeat {

  const SECOND := 1_000_000_000
  const HEARTBEAT_INTERVAL := 30 * SECOND
  const HEARTBEAT_CHECK_DELAY := 5 * SECOND
  const HEARTBEAT_TIMEOUT_S := 90
  const ROUND := HEARTBEAT_INTERVAL + HEARTBEAT_CHECK_DELAY

  // duration_cast to seconds truncates toward zero.
  function WholeSeconds(d: int): int {
    if d >= 0 then d / SECOND else -(-d / SECOND)
  }

  predicate TimedOut(lastPong: int, now: int) {
    WholeSeconds(now - lastPong) > HEARTBEAT_TIMEOUT_S
  }

  // unanswered counts the PINGs sent since the last recorded PONG or the registration.
  datatype Pulse = Pulse(lastPong: int, unanswered: nat)

  datatype Phase = BeforePing | BeforeCheck

  // wake: when the heartbeat thread's current sleep ends.
  datatype Beat = Beat(now: int, wake: int, phase: Phase, clients: map<string, Pulse>)

  datatype Step = Wait(duration: nat) | Ping | Check | Join(name: string) | Pong(name: string) | Leave(name: string)

  predicate Initial(b: Beat) {
    b.clients == map[] && b.phase == BeforePing && b.wake == b.now + HEARTBEAT_INTERVAL
  }

  predicate Enabled(b: Beat, step: Step) {
    match step
    case Wait(duration) => b.now + duration <= b.wake
    case Ping => b.phase == BeforePing && b.now == b.wake
    case Check => b.phase == BeforeCheck && b.now == b.wake
    case Join(name) => name !in b.clients
    case Pong(name) => name in b.clients
    case Leave(name) => name in b.clients
  }

  function After(b: Beat, step: Step): Beat
    requires Enabled(b, step)
  {
    match step
    case Wait(duration) => b.(now := b.now + duration)
    case Ping =>
      b.(phase := BeforeCheck, wake := b.now + HEARTBEAT_CHECK_DELAY,
         clients := map n | n in b.clients :: b.clients[n].(unanswered := b.clients[n].unanswered + 1))
    case Check =>
      b.(phase := BeforePing, wake := b.now + HEARTBEAT_INTERVAL,
         clients := map n | n in b.clients && !TimedOut(b.clients[n].lastPong, b.now) :: b.clients[n])
    case Join(name) => b.(clients := b.clients[name := Pulse(b.now, 0)])
    case Pong(name) => b.(clients := b.clients[name := Pulse(b.now, 0)])
    case Leave(name) => b.(clients := b.clients - {name})
  }

  ghost predicate IsRun(bs: seq<Beat>, steps: seq<Step>) {
    && |bs| == |steps| + 1 && Initial(bs[0])
    && forall i | 0 <= i < |steps| :: Enabled(bs[i], steps[i]) && bs[i + 1] == After(bs[i], steps[i])
  }

  // ------------------------------------------------------------------- invariant

  function NextPing(b: Beat): int {
    if b.phase == BeforePing then b.wake else b.wake + HEARTBEAT_INTERVAL
  }

  // The last check, or the start.
  function LastCheck(b: Beat): int {
    if b.phase == BeforePing then b.wake - HEARTBEAT_INTERVAL else b.wake - ROUND
  }

  // The last PONG lies between the last PING it could have answered and the next one,
  // which is unanswered; and it was not yet too old at the last check.
  predicate InRhythm(b: Beat, p: Pulse) {
    && p.lastPong <= b.now
    && NextPing(b) - ROUND * (p.unanswered + 1) <= p.lastPong <= NextPing(b) - ROUND * p.unanswered
    && LastCheck(b) - p.lastPong < 91 * SECOND
  }

  ghost predicate Inv(b: Beat) {
    && b.now <= b.wake && LastCheck(b) <= b.now
    && (b.phase == BeforeCheck ==> b.wake - HEARTBEAT_CHECK_DELAY <= b.now)
    && forall n | n in b.clients :: InRhythm(b, b.clients[n])
  }

  lemma StepKeepsInv(b: Beat, step: Step)
    requires Inv(b) && Enabled(b, step)
    ensures Inv(After(b, step))
  {
    var b' := After(b, step);
    forall n | n in b'.clients ensures InRhythm(b', b'.clients[n]) {
      if n in b.clients { assert InRhythm(b, b.clients[n]); }
    }
  }

  // At no time has a registered client been silent for 126 seconds.
  lemma {:induction false} RhythmAlways(bs: seq<Beat>, steps: seq<Step>, i: nat)
    requires IsRun(bs, steps) && i < |bs|
    ensures Inv(bs[i])
    ensures forall n | n in bs[i].clients :: bs[i].now - bs[i].clients[n].lastPong < 126 * SECOND
  {
    if i > 0 {
      RhythmAlways(bs, steps, i - 1);
      StepKeepsInv(bs[i - 1], steps[i - 1]);
    }
    forall n | n in bs[i].clients ensures bs[i].now - bs[i].clients[n].lastPong < 126 * SECOND {
      assert InRhythm(bs[i], bs[i].clients[n]);
    }
  }

  // --------------------------------------------------------------------- eviction

  // An evicted client's last PONG is at least 91 and less than 126 seconds old; every
  // client of at least 91 seconds' silence is evicted.
  lemma EvictedAge(bs: seq<Beat>, steps: seq<Step>, i: nat, name: string)
    requires IsRun(bs, steps) && i < |steps| && steps[i] == Check && name in bs[i].clients
    ensures var age := bs[i].now - bs[i].clients[name].lastPong;
            && (name !in bs[i + 1].clients <==> 91 * SECOND <= age)
            && age < 126 * SECOND
  {
    RhythmAlways(bs, steps, i);
    assert InRhythm(bs[i], bs[i].clients[name]);
  }

  // A client that answered at least one of the last three PINGs survives a check; one
  // that answered none of the last four does not. With exactly three unanswered it
  // depends on how late the last answer came: it survives when the answer was recorded
  // more than 19 seconds after its PING.
  lemma EvictedSilence(bs: seq<Beat>, steps: seq<Step>, i: nat, name: string)
    requires IsRun(bs, steps) && i < |steps| && steps[i] == Check && name in bs[i].clients
    ensures var p := bs[i].clients[name];
            var answered := bs[i].now - HEARTBEAT_CHECK_DELAY - ROUND * p.unanswered;
            && p.unanswered <= 4
            && (name !in bs[i + 1].clients <==>
                p.unanswered >= 4 || (p.unanswered == 3 && p.lastPong - answered <= 19 * SECOND))
  {
    RhythmAlways(bs, steps, i);
    assert InRhythm(bs[i], bs[i].clients[name]);
  }

  // Between checks nobody is evicted: a client leaves only by a check or on its own.
  lemma OnlyChecksEvict(b: Beat, step: Step, name: string)
    requires Enabled(b, step) && name in b.clients && name !in After(b, step).clients
    ensures step == Leave(name) || (step == Check && TimedOut(b.clients[name].lastPong, b.now))
  {
  }

  // A client that is never more than two PINGs behind when a check comes is never evicted.
  lemma {:induction false} FaithfulClientStays(bs: seq<Beat>, steps: seq<Step>, i: nat, j: nat, name: string)
    requires IsRun(bs, steps) && i <= j < |bs| && name in bs[i].clients
    requires forall k | i <= k < j :: steps[k] != Leave(name)
    requires forall k | i <= k < j && steps[k] == Check && name in bs[k].clients :: bs[k].clients[name].unanswered <= 2
    ensures name in bs[j].clients
    decreases j
  {
    if i < j {
      FaithfulClientStays(bs, steps, i, j - 1, name);
      if steps[j - 1] == Check {
        EvictedSilence(bs, steps, j - 1, name);
      }
    }
  }

  // ------------------------------------------------------- one answer in three is late

  function Only(lastPong: int, unanswered: nat): map<string, Pulse> {
    map["ann" := Pulse(lastPong, unanswered)]
  }

  // The steps from a PING that goes unanswered by the next one to the next one.
  lemma SilentRound(ping: int, lastPong: int, unanswered: nat) returns (bs: seq<Beat>, steps: seq<Step>)
    requires !TimedOut(lastPong, ping + HEARTBEAT_CHECK_DELAY)
    ensures steps == [Wait(HEARTBEAT_CHECK_DELAY), Check, Wait(HEARTBEAT_INTERVAL), Ping] && |bs| == 5
    ensures Follows(bs, steps)
    ensures bs[0] == Beat(ping, ping + HEARTBEAT_CHECK_DELAY, BeforeCheck, Only(lastPong, unanswered))
    ensures bs[3].now == ping + ROUND
    ensures bs[4] == Beat(ping + ROUND, ping + ROUND + HEARTBEAT_CHECK_DELAY, BeforeCheck, Only(lastPong, unanswered + 1))
  {
    var clients := Only(lastPong, unanswered);
    var check := ping + HEARTBEAT_CHECK_DELAY;
    var b0 := Beat(ping, check, BeforeCheck, clients);
    var b1 := Beat(check, check, BeforeCheck, clients);
    var b2 := Beat(check, ping + ROUND, BeforePing, clients);
    var b3 := Beat(ping + ROUND, ping + ROUND, BeforePing, clients);
    var b4 := After(b3, Ping);
    assert After(b1, Check) == b2;
    assert b4.clients == Only(lastPong, unanswered + 1);
    bs, steps := [b0, b1, b2, b3, b4], [Wait(HEARTBEAT_CHECK_DELAY), Check, Wait(HEARTBEAT_INTERVAL), Ping];
  }

  ghost predicate Follows(bs: seq<Beat>, steps: seq<Step>) {
    && |bs| == |steps| + 1
    && forall i | 0 <= i < |steps| :: Enabled(bs[i], steps[i]) && bs[i + 1] == After(bs[i], steps[i])
  }

  lemma Chained(a: seq<Beat>, s: seq<Step>, b: seq<Beat>, t: seq<Step>)
    requires Follows(a, s) && Follows(b, t) && a[|s|] == b[0]
    ensures Follows(a + b[1..], s + t)
  {
    hide Enabled, After;
    var bs, steps := a + b[1..], s + t;
    forall i | 0 <= i < |steps| ensures Enabled(bs[i], steps[i]) && bs[i + 1] == After(bs[i], steps[i]) {
      if i < |s| {
        assert Enabled(a[i], s[i]);
      } else {
        assert bs[i] == b[i - |s|] && bs[i + 1] == b[i - |s| + 1] && Enabled(b[i - |s|], t[i - |s|]);
      }
    }
  }

  lemma FirstRound() returns (bs: seq<Beat>, steps: seq<Step>)
    ensures steps == [Join("ann"), Wait(HEARTBEAT_INTERVAL), Ping, Pong("ann")] && |bs| == 5
    ensures Follows(bs, steps) && Initial(bs[0])
    ensures bs[2].now == HEARTBEAT_INTERVAL
    ensures bs[4] == Beat(HEARTBEAT_INTERVAL, ROUND, BeforeCheck, Only(HEARTBEAT_INTERVAL, 0))
  {
    var b0 := Beat(0, HEARTBEAT_INTERVAL, BeforePing, map[]);
    var b1 := Beat(0, HEARTBEAT_INTERVAL, BeforePing, Only(0, 0));
    var b2 := Beat(HEARTBEAT_INTERVAL, HEARTBEAT_INTERVAL, BeforePing, Only(0, 0));
    var b3 := After(b2, Ping);
    assert b3.clients == Only(0, 1);
    var b4 := After(b3, Pong("ann"));
    assert b4.clients == Only(HEARTBEAT_INTERVAL, 0);
    bs, steps := [b0, b1, b2, b3, b4], [Join("ann"), Wait(HEARTBEAT_INTERVAL), Ping, Pong("ann")];
  }

  lemma LastRound() returns (bs: seq<Beat>, steps: seq<Step>)
    ensures steps == [Wait(HEARTBEAT_CHECK_DELAY), Check] && |bs| == 3 && Follows(bs, steps)
    ensures bs[0] == Beat(HEARTBEAT_INTERVAL + 3 * ROUND, 4 * ROUND, BeforeCheck, Only(HEARTBEAT_INTERVAL, 3))
    ensures bs[1] == bs[0].(now := 4 * ROUND) && bs[2].clients == map[]
  {
    var b0 := Beat(HEARTBEAT_INTERVAL + 3 * ROUND, 4 * ROUND, BeforeCheck, Only(HEARTBEAT_INTERVAL, 3));
    var b1 := b0.(now := 4 * ROUND);
    var b2 := After(b1, Check);
    assert TimedOut(HEARTBEAT_INTERVAL, 4 * ROUND);
    bs, steps := [b0, b1, b2], [Wait(HEARTBEAT_CHECK_DELAY), Check];
  }

  // A run in which ann answers the first PING at once, not the second and third, and would
  // answer the fourth: five seconds after the fourth she is evicted. Answering one PING in
  // every three is not enough when the answer is recorded after the check.
  lemma OneInThreeIsEvicted() returns (bs: seq<Beat>, steps: seq<Step>)
    ensures IsRun(bs, steps) && |bs| == 19 && |steps| == 18
    ensures forall k | 0 <= k < 18 :: steps[k] == Ping <==> k in {2, 7, 11, 15}
    ensures steps[3] == Pong("ann") && bs[4].now == bs[2].now
    ensures steps[17] == Check && bs[17].now == bs[15].now + 5 * SECOND
    ensures bs[17].clients == Only(bs[2].now, 3) && "ann" !in bs[18].clients
  {
    hide Follows, Enabled, After;
    var t := HEARTBEAT_INTERVAL;
    bs, steps := FirstRound();
    var more, on := SilentRound(t, t, 0);
    Chained(bs, steps, more, on);
    bs, steps := bs + more[1..], steps + on;
    more, on := SilentRound(t + ROUND, t, 1);
    Chained(bs, steps, more, on);
    bs, steps := bs + more[1..], steps + on;
    more, on := SilentRound(t + 2 * ROUND, t, 2);
    Chained(bs, steps, more, on);
    bs, steps := bs + more[1..], steps + on;
    more, on := LastRound();
    Chained(bs, steps, more, on);
    bs, steps := bs + more[1..], steps + on;
    FollowsIsRun(bs, steps);
  }

  lemma FollowsIsRun(bs: seq<Beat>, steps: seq<Step>)
    requires Follows(bs, steps) && Initial(bs[0])
    ensures IsRun(bs, steps)
  {
  }
}
