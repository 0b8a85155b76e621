/** Scripts of servo targets, turned into commands and put through the controller's filter. */
module Scripts {
  import opened Servos
  import opened ControllerState
  import opened ControllerRuns
  import opened ControllerHandlers

  datatype ScriptTarget = ScriptTarget(id: Servo, position: real, gain: real)

  datatype Frame = Frame(duration: int, targets: seq<ScriptTarget>)

  datatype Script = Script(frames: seq<Frame>)

  /** One script after another. */
  function Plus(s1: Script, s2: Script): Script {
    Script(s1.frames + s2.frames)
  }

  function AllFrames(scripts: seq<Script>): seq<Frame> {
    if scripts == [] then [] else AllFrames(scripts[..|scripts| - 1]) + scripts[|scripts| - 1].frames
  }

  /** The time at the end of some frames. */
  function EndTime(start: int, frames: seq<Frame>): int {
    if frames == [] then start else EndTime(start, frames[..|frames| - 1]) + frames[|frames| - 1].duration
  }

  function CommandOf(source: nat, time: int, t: ScriptTarget): Command {
    Command(source, time, t.id, t.position, t.gain)
  }

  function FrameCommands(source: nat, time: int, targets: seq<ScriptTarget>): (cs: seq<Command>)
    ensures |cs| == |targets| && forall i :: 0 <= i < |cs| ==> cs[i] == CommandOf(source, time, targets[i])
  {
    seq(|targets|, i requires 0 <= i < |targets| => CommandOf(source, time, targets[i]))
  }

  /** Every target of a frame is due at the end of the frame. */
  function ScriptCommands(source: nat, start: int, frames: seq<Frame>): seq<Command> {
    if frames == [] then []
    else ScriptCommands(source, start, frames[..|frames| - 1])
         + FrameCommands(source, EndTime(start, frames), frames[|frames| - 1].targets)
  }

  lemma AddFrame(source: nat, start: int, frames: seq<Frame>, frame: Frame)
    ensures EndTime(start, frames + [frame]) == EndTime(start, frames) + frame.duration
    ensures ScriptCommands(source, start, frames + [frame])
         == ScriptCommands(source, start, frames)
           + FrameCommands(source, EndTime(start, frames) + frame.duration, frame.targets)
  {
    assert (frames + [frame])[..|frames|] == frames;
  }

  method AddTargets(waypoints: seq<Command>, source: nat, time: int, targets: seq<ScriptTarget>)
    returns (w: seq<Command>)
    ensures w == waypoints + FrameCommands(source, time, targets)
  {
    w := waypoints;
    for k := 0 to |targets|
      invariant w == waypoints + FrameCommands(source, time, targets)[..k]
    {
      w := w + [Command(source, time, targets[k].id, targets[k].position, targets[k].gain)];
    }
    assert FrameCommands(source, time, targets)[..|targets|] == FrameCommands(source, time, targets);
  }

  /** One script's frames, after those of the scripts before it. */
  method AddFrames(waypoints: seq<Command>, time: int, source: nat, frames: seq<Frame>, ghost start: int,
                   ghost done: seq<Frame>)
    returns (w: seq<Command>, end: int)
    requires waypoints == ScriptCommands(source, start, done) && time == EndTime(start, done)
    ensures w == ScriptCommands(source, start, done + frames) && end == EndTime(start, done + frames)
  {
    hide ScriptCommands, FrameCommands, EndTime;
    w, end := waypoints, time;
    assert done + frames[..0] == done;
    for j := 0 to |frames|
      invariant w == ScriptCommands(source, start, done + frames[..j])
      invariant end == EndTime(start, done + frames[..j])
    {
      AddFrame(source, start, done + frames[..j], frames[j]);
      assert done + frames[..j + 1] == (done + frames[..j]) + [frames[j]];
      end := end + frames[j].duration;
      w := AddTargets(w, source, end, frames[j].targets);
    }
    assert frames[..|frames|] == frames;
  }

  method ExecuteScript(source: nat, scripts: seq<Script>, start: int) returns (waypoints: seq<Command>)
    ensures waypoints == ScriptCommands(source, start, AllFrames(scripts))
  {
    waypoints := [];
    var time := start;
    for i := 0 to |scripts|
      invariant waypoints == ScriptCommands(source, start, AllFrames(scripts[..i]))
      invariant time == EndTime(start, AllFrames(scripts[..i]))
    {
      assert scripts[..i + 1][..i] == scripts[..i];
      waypoints, time := AddFrames(waypoints, time, source, scripts[i].frames, start, AllFrames(scripts[..i]));
    }
    assert scripts[..|scripts|] == scripts;
  }

  /** How long the first n frames take, and how many targets they have. */
  function Elapsed(frames: seq<Frame>, n: nat): int
    requires n <= |frames|
  {
    if n == 0 then 0 else Elapsed(frames, n - 1) + frames[n - 1].duration
  }

  function TargetCount(frames: seq<Frame>, n: nat): nat
    requires n <= |frames|
  {
    if n == 0 then 0 else TargetCount(frames, n - 1) + |frames[n - 1].targets|
  }

  lemma {:induction false} SameSums(frames: seq<Frame>, more: seq<Frame>, n: nat)
    requires n <= |frames|
    ensures Elapsed(frames + more, n) == Elapsed(frames, n) && TargetCount(frames + more, n) == TargetCount(frames, n)
  {
    if n > 0 {
      SameSums(frames, more, n - 1);
    }
  }

  lemma {:induction false} EndIsElapsed(start: int, frames: seq<Frame>)
    ensures EndTime(start, frames) == start + Elapsed(frames, |frames|)
  {
    if frames != [] {
      var front, last := frames[..|frames| - 1], frames[|frames| - 1];
      assert frames == front + [last];
      EndIsElapsed(start, front);
      SameSums(front, [last], |front|);
    }
  }

  /** The commands are those of the frames in order and of each frame's targets in order: that of the j-th
      target of the k-th frame comes behind all those of earlier frames, at the time from the start at which its
      frame ends, with the target's servo, position and gain. */
  lemma {:induction false} CommandsExactly(source: nat, start: int, frames: seq<Frame>, k: nat, j: nat)
    requires k < |frames| && j < |frames[k].targets|
    ensures |ScriptCommands(source, start, frames)| == TargetCount(frames, |frames|)
    ensures TargetCount(frames, k) + j < |ScriptCommands(source, start, frames)|
    ensures var t := frames[k].targets[j];
      ScriptCommands(source, start, frames)[TargetCount(frames, k) + j]
        == Command(source, start + Elapsed(frames, k + 1), t.id, t.position, t.gain)
    decreases |frames|
  {
    var front, last := frames[..|frames| - 1], frames[|frames| - 1];
    assert frames == front + [last];
    CommandsCount(source, start, frames);
    CommandsCount(source, start, front);
    SameSums(front, [last], |front|);
    if k < |front| {
      CommandsExactly(source, start, front, k, j);
      SameSums(front, [last], k);
      SameSums(front, [last], k + 1);
    } else {
      EndIsElapsed(start, frames);
    }
  }

  lemma {:induction false} CommandsCount(source: nat, start: int, frames: seq<Frame>)
    ensures |ScriptCommands(source, start, frames)| == TargetCount(frames, |frames|)
    decreases |frames|
  {
    if frames != [] {
      var front, last := frames[..|frames| - 1], frames[|frames| - 1];
      assert frames == front + [last];
      CommandsCount(source, start, front);
      SameSums(front, [last], |front|);
    }
  }

  /** Wherever two scripts stand next to each other in a list, their sum may stand instead. */
  lemma {:induction false} SumIsList(before: seq<Script>, s1: Script, s2: Script, after: seq<Script>)
    ensures AllFrames(before + [Plus(s1, s2)] + after) == AllFrames(before + [s1, s2] + after)
    decreases |after|
  {
    var sum, list := before + [Plus(s1, s2)] + after, before + [s1, s2] + after;
    if after == [] {
      assert sum[..|sum| - 1] == before && list[..|list| - 1] == before + [s1] && (before + [s1])[..|before|] == before;
      assert AllFrames(before + [s1]) == AllFrames(before) + s1.frames;
    } else {
      var front := after[..|after| - 1];
      SumIsList(before, s1, s2, front);
      assert sum[..|sum| - 1] == before + [Plus(s1, s2)] + front;
      assert list[..|list| - 1] == before + [s1, s2] + front;
    }
  }

  // ----- Through the filter -----

  /** The commands for one servo, in order. */
  function ForServo(commands: seq<Command>, servo: Servo): seq<Command> {
    if commands == [] then []
    else ForServo(commands[..|commands| - 1], servo)
         + (if commands[|commands| - 1].id == servo then [commands[|commands| - 1]] else [])
  }

  function PushAll(q: seq<Command>, cs: seq<Command>): seq<Command> {
    if cs == [] then q else Push(PushAll(q, cs[..|cs| - 1]), cs[|cs| - 1])
  }

  lemma PushOneMore(q: seq<Command>, cs: seq<Command>, c: Command)
    ensures PushAll(q, cs + [c]) == Push(PushAll(q, cs), c)
  {
    assert (cs + [c])[..|cs|] == cs;
  }

  lemma FilterOneMore(s: State, front: seq<Command>, c: Command, servo: Servo)
    requires Sized(s)
    ensures Filter(s, front + [c]).queues[servo] ==
            if c.id == servo && HasAccess(s, c) then Push(Filter(s, front).queues[servo], c)
            else Filter(s, front).queues[servo]
  {
    assert (front + [c])[..|front|] == front;
  }

  lemma ForServoOneMore(front: seq<Command>, c: Command, servo: Servo)
    ensures ForServo(front + [c], servo) 
         == if c.id == servo then ForServo(front, servo) + [c] else ForServo(front, servo)
  {
    assert (front + [c])[..|front|] == front;
  }

  /** Commands from one source reach the queues of exactly the servos whose limb it holds. */
  lemma {:induction false} FilterBySource(s: State, commands: seq<Command>, source: nat, servo: Servo)
    requires Sized(s) && LimbForServo(servo) < LIMB_COUNT
    requires forall c :: c in commands ==> c.source == source
    ensures Filter(s, commands).queues[servo] ==
            if s.limbAccess[LimbForServo(servo)] == source then PushAll(s.queues[servo], ForServo(commands, servo))
            else s.queues[servo]
    decreases |commands|
  {
    if commands != [] {
      var front, c := commands[..|commands| - 1], commands[|commands| - 1];
      assert commands == front + [c] && c in commands;
      FilterBySource(s, front, source, servo);
      FilterOneMore(s, front, c, servo);
      ForServoOneMore(front, c, servo);
      if c.id == servo {
        PushOneMore(s.queues[servo], ForServo(front, servo), c);
      }
    }
  }

  ghost predicate InTime(cs: seq<Command>) {
    forall i, j :: 0 <= i < j < |cs| ==> cs[i].time <= cs[j].time
  }

  /** Of a queue in order of time, popping leaves the commands that are not later. */
  lemma PopLaterKeepsEarlier(q: seq<Command>, time: int, i: nat)
    requires InTime(q) && i < |q|
    ensures i < |PopLater(q, time)| <==> q[i].time <= time
    ensures PopLater(q, time) <= q
  {
    PopLaterIsPrefix(q, time);
  }

  lemma PopNothing(q: seq<Command>, front: seq<Command>, time: int)
    requires front != [] && front[|front| - 1].time <= time
    ensures PopLater(q + front, time) == q + front
  {
  }

  lemma Regroup(a: seq<Command>, b: seq<Command>, c: seq<Command>)
    ensures (a + b) + c == a + (b + c)
  {
  }

  lemma {:induction false} PushInTime(q: seq<Command>, cs: seq<Command>)
    requires cs != [] && InTime(cs)
    ensures PushAll(q, cs) == PopLater(q, cs[0].time) + cs
  {
    var front, c := cs[..|cs| - 1], cs[|cs| - 1];
    if front != [] {
      PushInTime(q, front);
      PopNothing(PopLater(q, cs[0].time), front, c.time);
      Regroup(PopLater(q, cs[0].time), front, [c]);
      assert cs == front + [c];
    } else {
      assert cs == [c];
      assert PushAll(q, front) == q;
    }
  }

  lemma {:induction false} PushOutOfTime(q: seq<Command>, cs: seq<Command>)
    requires cs != [] && !InTime(cs)
    ensures |PushAll(q, cs)| < |PopLater(q, cs[0].time)| + |cs|
  {
    var front, c := cs[..|cs| - 1], cs[|cs| - 1];
    assert cs == front + [c];
    PopLaterIsPrefix(PushAll(q, front), c.time);
    if InTime(front) {
      PushInTime(q, front);
      var before := PushAll(q, front);
      LastIsLater(front, c);
      assert before[|before| - 1] == front[|front| - 1];
      assert |PopLater(before, c.time)| < |before|;
    } else {
      PushOutOfTime(q, front);
    }
  }

  lemma LastIsLater(front: seq<Command>, c: Command)
    requires front != [] && InTime(front) && !InTime(front + [c])
    ensures c.time < front[|front| - 1].time
  {
  }

  /** The commands pushed stand at the end of the queue, after the old ones that are not later
      than the first of them, exactly when they come in order of time. */
  lemma PushedStandInOrder(q: seq<Command>, cs: seq<Command>)
    requires cs != []
    ensures PushAll(q, cs) == PopLater(q, cs[0].time) + cs <==> InTime(cs)
  {
    if InTime(cs) {
      PushInTime(q, cs);
    } else {
      PushOutOfTime(q, cs);
    }
  }

  // ----- A script through the filter -----

  lemma {:induction false} ScriptCommandsBounded(source: nat, start: int, frames: seq<Frame>)
    requires forall k :: 0 <= k < |frames| ==> frames[k].duration >= 0
    ensures InTime(ScriptCommands(source, start, frames))
    ensures forall c :: c in ScriptCommands(source, start, frames) ==> c.time <= EndTime(start, frames)
  {
    if frames != [] {
      ScriptCommandsBounded(source, start, frames[..|frames| - 1]);
      var before := ScriptCommands(source, start, frames[..|frames| - 1]);
      forall i | 0 <= i < |before| ensures before[i].time <= EndTime(start, frames) {
        assert before[i] in before;
      }
    }
  }

  lemma {:induction false} ScriptHasSource(source: nat, start: int, frames: seq<Frame>)
    ensures forall c :: c in ScriptCommands(source, start, frames) ==> c.source == source
  {
    if frames != [] {
      ScriptHasSource(source, start, frames[..|frames| - 1]);
    }
  }

  lemma {:induction false} ForServoInTime(cs: seq<Command>, servo: Servo)
    requires InTime(cs)
    ensures InTime(ForServo(cs, servo))
    ensures forall c :: c in ForServo(cs, servo) ==> c in cs
  {
    if cs != [] {
      var front, c := cs[..|cs| - 1], cs[|cs| - 1];
      ForServoInTime(front, servo);
      assert cs == front + [c];
      var kept := ForServo(front, servo);
      forall i | 0 <= i < |kept| ensures kept[i].time <= c.time {
        assert kept[i] in front;
      }
    }
  }

  /** Of the commands for one servo those in time stay in time when the frames take no negative time. */
  lemma FramesForward(source: nat, start: int, frames: seq<Frame>, servo: Servo)
    requires forall k :: 0 <= k < |frames| ==> frames[k].duration >= 0
    ensures InTime(ForServo(ScriptCommands(source, start, frames), servo))
  {
    ScriptCommandsBounded(source, start, frames);
    ForServoInTime(ScriptCommands(source, start, frames), servo);
  }

  /** Executing scripts leaves the queue of each servo the source holds, and that the scripts move, as its
      old commands that are not later than the first target for it followed by exactly the targets for
      it in order, exactly when these targets come in order of time, as they do when no frame takes
      negative time. Servos the source does not hold, or that the scripts do not move, are untouched. */
  lemma ScriptThroughFilter(s: State, source: nat, start: int, scripts: seq<Script>, servo: Servo)
    requires Inv(s)
    ensures var cs := ForServo(ScriptCommands(source, start, AllFrames(scripts)), servo);
      var q, q' := s.queues[servo], Filter(s, ScriptCommands(source, start, AllFrames(scripts))).queues[servo];
      if s.limbAccess[LimbForServo(servo)] == source && cs != [] then
        && (q' == PopLater(q, cs[0].time) + cs <==> InTime(cs))
        && forall i :: 0 <= i < |q| ==> (i < |PopLater(q, cs[0].time)| <==> q[i].time <= cs[0].time)
      else q' == q
    ensures (forall k :: 0 <= k < |AllFrames(scripts)| ==> AllFrames(scripts)[k].duration >= 0) ==>
              InTime(ForServo(ScriptCommands(source, start, AllFrames(scripts)), servo))
  {
    var commands := ScriptCommands(source, start, AllFrames(scripts));
    var cs, q := ForServo(commands, servo), s.queues[servo];
    TablesAreInverse(servo, 0);
    ScriptHasSource(source, start, AllFrames(scripts));
    FilterBySource(s, commands, source, servo);
    if forall k :: 0 <= k < |AllFrames(scripts)| ==> AllFrames(scripts)[k].duration >= 0 {
      FramesForward(source, start, AllFrames(scripts), servo);
    }
    if cs != [] {
      PushedStandInOrder(q, cs);
      assert SoundQueue(q, servo, HolderOf(s.requests, s.current, LimbForServo(servo)));
      forall i | 0 <= i < |q| ensures i < |PopLater(q, cs[0].time)| <==> q[i].time <= cs[0].time {
        PopLaterKeepsEarlier(q, cs[0].time, i);
      }
    }
  }
}
