/** Turning consecutive referee packets into a published game state and events. */
module GameControl {

  // ----- Packets -----
  // Fields that are enumerations are bytes on the wire, so values that no enumerator has can
  // arrive too.

  datatype PenaltyReason = UNPENALISED | BALL_MANIPULATION | PHYSICAL_CONTACT | ILLEGAL_ATTACK | ILLEGAL_DEFENSE
    | REQUEST_FOR_PICKUP | REQUEST_FOR_SERVICE | REQUEST_FOR_PICKUP_TO_SERVICE | SUBSTITUTE | MANUAL

  datatype PenaltyState = Penalty(reason: PenaltyReason) | UnknownPenalty(code: nat)

  datatype Phase = INITIAL | READY | SET | PLAYING | TIMED_OUT | FINISHED

  datatype PlayState = Play(phase: Phase) | UnknownState(code: nat)

  datatype Mode = NORMAL | PENALTY_SHOOTOUT | OVERTIME | TIMEOUT | UnknownMode(code: nat)

  datatype TeamColour = CYAN | MAGENTA | UnknownColour(code: nat)

  datatype Robot = Robot(penaltyState: PenaltyState, penalisedTimeLeft: nat)

  datatype Team = Team(teamId: nat, teamColour: TeamColour, score: nat, coachMessage: string, players: seq<Robot>)

  datatype Packet = Packet(version: nat, playersPerTeam: nat, state: PlayState, firstHalf: bool,
                           kickOffTeam: TeamColour, mode: Mode, dropInTeam: TeamColour, dropInTime: int,
                           secsRemaining: nat, secondaryTime: nat, teams: seq<Team>)

  const MAX_NUM_PLAYERS: nat := 11
  const NUM_TEAMS: nat := 2
  const SUPPORTED_VERSION: nat := 8
  const PLAYERS_PER_TEAM: nat := 6
  const ACTIVE_PLAYERS_PER_TEAM: nat := 4

  /** What every packet has by its layout. */
  ghost predicate LaidOut(p: Packet) {
    && |p.teams| == NUM_TEAMS
    && (forall i :: 0 <= i < NUM_TEAMS ==> |p.teams[i].players| == MAX_NUM_PLAYERS)
    && p.state != Play(TIMED_OUT)
  }

  // ----- What is published -----

  datatype RobotState = RobotState(id: nat, penaltyReason: PenaltyReason, unpenalised: int)

  datatype TeamState = TeamState(teamId: nat, score: nat, coachMessage: string, players: seq<RobotState>)

  datatype GameState = GameState(phase: Phase, mode: Mode, firstHalf: bool, kickedOutByUs: bool, kickedOutTime: int,
                                 ourKickOff: bool, primaryTime: int, secondaryTime: int,
                                 team: TeamState, opponent: TeamState)

  datatype Context = SELF | TEAM | OPPONENT

  datatype Event =
    | Score(own: nat, opponent: nat)
    | GoalScored(context: Context, total: nat)
    | Penalisation(context: Context, robotId: nat, ends: int, reason: PenaltyReason)
    | Unpenalisation(context: Context, robotId: nat)
    | CoachMessage(context: Context, message: string)
    | HalfTime(firstHalf: bool)
    | BallKickedOut(context: Context, time: int)
    | KickOffTeam(context: Context)
    | ColourChange(colour: TeamColour)
    | GameMode(mode: Mode)
    | GamePhase(phase: Phase, primary: int, secondary: int)
    | PhaseIs(phase: Phase)

  datatype Config = Config(teamId: nat, playerId: nat)

  // ----- Looking up the teams -----

  datatype Option<T> = None | Some(value: T)

  /** The first team with our id, or the first without it. */
  function FirstTeam(teams: seq<Team>, id: nat, own: bool): (t: Option<Team>)
    ensures t.None? <==> forall i :: 0 <= i < |teams| ==> (teams[i].teamId == id) != own
    ensures t.Some? ==> exists k :: 0 <= k < |teams| && t.value == teams[k] && (teams[k].teamId == id) == own
                                  && forall i :: 0 <= i < k ==> (teams[i].teamId == id) != own
  {
    if teams == [] then None
    else if (teams[0].teamId == id) == own then Some(teams[0])
    else FirstTeam(teams[1..], id, own)
  }

  predicate HasBothTeams(cfg: Config, p: Packet) {
    FirstTeam(p.teams, cfg.teamId, true).Some? && FirstTeam(p.teams, cfg.teamId, false).Some?
  }

  function OwnTeam(cfg: Config, p: Packet): (t: Team)
    requires HasBothTeams(cfg, p)
    ensures t in p.teams
  {
    FirstTeam(p.teams, cfg.teamId, true).value
  }

  function OpponentTeam(cfg: Config, p: Packet): (t: Team)
    requires HasBothTeams(cfg, p)
    ensures t in p.teams
  {
    FirstTeam(p.teams, cfg.teamId, false).value
  }

  // ----- The sections of processing -----
  // Each takes the state so far and gives the new state and the changes to announce.

  datatype Section = Section(state: GameState, changes: seq<Event>)

  function Scores(s: GameState, oldOwn: Team, own: Team, oldOpponent: Team, opponent: Team): Section {
    // the comparison is as in the original: a goal is announced when a score drops
    var s1 := if oldOwn.score > own.score then s.(team := s.team.(score := own.score)) else s;
    var s2 := if oldOpponent.score > opponent.score then s1.(opponent := s1.opponent.(score := opponent.score)) else s1;
    Section(s2, (if oldOwn.score > own.score then [GoalScored(TEAM, own.score)] else [])
              + (if oldOpponent.score > opponent.score then [GoalScored(OPPONENT, opponent.score)] else []))
  }

  function PlayerChange(context: Context, id: nat, old': Robot, new': Robot, now: int): seq<Event>
    requires new'.penaltyState.Penalty?
  {
    if new'.penaltyState != old'.penaltyState && new'.penaltyState != Penalty(UNPENALISED) then
      [Penalisation(context, id, now + new'.penalisedTimeLeft, new'.penaltyState.reason)]
    else if new'.penaltyState == Penalty(UNPENALISED) && old'.penaltyState != Penalty(UNPENALISED) then
      [Unpenalisation(context, id)]
    else []
  }

  function OwnContext(cfg: Config, id: nat): Context {
    if id == cfg.playerId then SELF else TEAM
  }

  predicate AllKnown(players: seq<Robot>, n: nat) {
    n <= |players| && forall i :: 0 <= i < n ==> players[i].penaltyState.Penalty?
  }

  /** The changes to the first n players of both teams, player by player. */
  function PlayerChanges(cfg: Config, oldOwn: seq<Robot>, own: seq<Robot>, oldOpponent: seq<Robot>,
                         opponent: seq<Robot>, n: nat, now: int): seq<Event>
    requires AllKnown(own, n) && AllKnown(opponent, n) && n <= |oldOwn| && n <= |oldOpponent|
  {
    if n == 0 then [] else
      PlayerChanges(cfg, oldOwn, own, oldOpponent, opponent, n - 1, now)
      + PlayerChange(OwnContext(cfg, n), n, oldOwn[n - 1], own[n - 1], now)
      + PlayerChange(OPPONENT, n, oldOpponent[n - 1], opponent[n - 1], now)
  }

  function Roster(players: seq<Robot>, n: nat, now: int): (r: seq<RobotState>)
    requires AllKnown(players, n)
    ensures |r| == n
    ensures forall i :: 0 <= i < n ==>
            r[i] == RobotState(i + 1, players[i].penaltyState.reason, now + players[i].penalisedTimeLeft)
  {
    seq(n, i requires 0 <= i < n =>
      RobotState(i + 1, players[i].penaltyState.reason, now + players[i].penalisedTimeLeft))
  }

  function Coaches(s: GameState, oldOwn: Team, own: Team, oldOpponent: Team, opponent: Team): Section {
    var s1 := if oldOwn.coachMessage == own.coachMessage then s
              else s.(team := s.team.(coachMessage := own.coachMessage));
    var s2 := if oldOpponent.coachMessage != opponent.coachMessage
              then s1.(opponent := s1.opponent.(coachMessage := opponent.coachMessage)) else s1;
    Section(s2, (if oldOwn.coachMessage != own.coachMessage then [CoachMessage(TEAM, own.coachMessage)] else [])
              + (if oldOpponent.coachMessage == opponent.coachMessage then []
                 else [CoachMessage(OPPONENT, opponent.coachMessage)]))
  }

  function Halves(s: GameState, old': Packet, new': Packet): Section {
    if old'.firstHalf != new'.firstHalf then Section(s.(firstHalf := new'.firstHalf), [HalfTime(new'.firstHalf)])
    else Section(s, [])
  }

  function KickOuts(s: GameState, old': Packet, new': Packet, colour: TeamColour, now: int): Section {
    if (new'.dropInTime != -1 && ((new'.dropInTime < old'.dropInTime) == (old'.dropInTime != -1)))
       || new'.dropInTeam != old'.dropInTeam
    then
      var time, us := now - new'.dropInTime, new'.dropInTeam == colour;
      Section(s.(kickedOutByUs := us, kickedOutTime := time), [BallKickedOut(if us then TEAM else OPPONENT, time)])
    else Section(s, [])
  }

  function KickOffs(s: GameState, old': Packet, new': Packet, colour: TeamColour): Section {
    if old'.kickOffTeam != new'.kickOffTeam then
      var us := new'.kickOffTeam == colour;
      Section(s.(ourKickOff := us), [KickOffTeam(if us then TEAM else OPPONENT)])
    else Section(s, [])
  }

  function Colours(s: GameState, oldOwn: Team, own: Team): Section {
    if oldOwn.teamColour != own.teamColour
    then Section(s, [ColourChange(if own.teamColour == CYAN then CYAN else MAGENTA)])
    else Section(s, [])
  }

  predicate ModeChanges(mode: Mode, old': Packet, new': Packet) {
    new'.mode != mode && old'.mode != TIMEOUT && new'.mode != TIMEOUT
  }

  function Modes(s: GameState, mode: Mode, old': Packet, new': Packet): Section {
    if ModeChanges(mode, old', new') then Section(s.(mode := new'.mode), [GameMode(new'.mode)]) else Section(s, [])
  }

  predicate TimeoutStarts(old': Packet, new': Packet) {
    old'.mode != TIMEOUT && new'.mode == TIMEOUT
  }

  predicate StateMatters(old': Packet, new': Packet) {
    !TimeoutStarts(old', new') && (old'.state != new'.state || (old'.mode == TIMEOUT && new'.mode != TIMEOUT))
  }

  function Phases(s: GameState, old': Packet, new': Packet, now: int): Section {
    if TimeoutStarts(old', new') then
      Section(s.(phase := TIMED_OUT, secondaryTime := now + new'.secondaryTime),
              [GamePhase(TIMED_OUT, 0, now + new'.secondaryTime)])
    else if StateMatters(old', new') then
      match new'.state
      case Play(INITIAL) => Section(s.(phase := INITIAL), [GamePhase(INITIAL, 0, 0)])
      case Play(READY) =>
        Section(s.(phase := READY, secondaryTime := now + new'.secondaryTime),
          [GamePhase(READY, 0, now + new'.secondaryTime)])
      case Play(SET) => Section(s.(phase := SET), [GamePhase(SET, 0, 0)])
      case Play(PLAYING) =>
        Section(s.(primaryTime := now + new'.secsRemaining, secondaryTime := now + new'.secondaryTime,
                   phase := PLAYING),
                [GamePhase(PLAYING, now + new'.secsRemaining, now + new'.secondaryTime)])
      case Play(FINISHED) =>
        Section(s.(primaryTime := now + new'.secsRemaining, phase := FINISHED),
          [GamePhase(FINISHED, now + new'.secsRemaining, 0)])
      case _ => Section(s, [])
    else Section(s, [])
  }

  function ScoreNotice(oldOwn: Team, own: Team, oldOpponent: Team, opponent: Team): seq<Event> {
    if oldOwn.score != own.score || oldOpponent.score != opponent.score then [Score(own.score, opponent.score)] else []
  }

  function PhaseNotice(s: GameState, old': Packet, new': Packet): seq<Event> {
    if StateMatters(old', new') then [PhaseIs(s.phase)] else []
  }

  // ----- One packet -----

  /** The last accepted packet, the mode outside timeouts, the state last published, and the
      events sent out so far. */
  datatype Monitor = Monitor(packet: Packet, mode: Mode, published: GameState, emitted: seq<Event>)

  predicate PenaltiesKnown(cfg: Config, p: Packet)
    requires HasBothTeams(cfg, p)
  {
    AllKnown(OwnTeam(cfg, p).players, p.playersPerTeam) && AllKnown(OpponentTeam(cfg, p).players, p.playersPerTeam)
  }

  /** Whether processing a packet runs to its end, rather than throw. */
  predicate Accepts(cfg: Config, m: Monitor, p: Packet) {
    && HasBothTeams(cfg, m.packet) && HasBothTeams(cfg, p)
    && PenaltiesKnown(cfg, p)
    && !(ModeChanges(m.mode, m.packet, p) && p.mode.UnknownMode?)
  }

  /** Scores, then players. */
  function FirstSections(cfg: Config, s: GameState, oldOwn: Team, own: Team, oldOpponent: Team, opponent: Team,
                         n: nat, now: int): Section
    requires AllKnown(own.players, n) && AllKnown(opponent.players, n)
             && n <= |oldOwn.players| && n <= |oldOpponent.players|
  {
    var scores := Scores(s, oldOwn, own, oldOpponent, opponent);
    Section(scores.state.(team := scores.state.team.(players := Roster(own.players, n, now)),
                          opponent := scores.state.opponent.(players := Roster(opponent.players, n, now))),
            scores.changes
            + PlayerChanges(cfg, oldOwn.players, own.players, oldOpponent.players, opponent.players, n, now))
  }

  /** Kick-outs, kick-offs and our colour. */
  function MiddleSections(s: GameState, old': Packet, new': Packet, oldOwn: Team, own: Team, now: int): Section {
    var kickOuts := KickOuts(s, old', new', own.teamColour, now);
    var kickOffs := KickOffs(kickOuts.state, old', new', own.teamColour);
    var colours := Colours(kickOffs.state, oldOwn, own);
    Section(colours.state, kickOuts.changes + kickOffs.changes + colours.changes)
  }

  /** Those, then the mode and the phase. */
  function LastSections(s: GameState, mode: Mode, old': Packet, new': Packet, oldOwn: Team, own: Team,
                        now: int): Section {
    var middle := MiddleSections(s, old', new', oldOwn, own, now);
    var modes := Modes(middle.state, mode, old', new');
    var phases := Phases(modes.state, old', new', now);
    Section(phases.state, middle.changes + modes.changes + phases.changes)
  }

  /** The state and the changes a packet that is accepted leads to. */
  function Changes(cfg: Config, m: Monitor, p: Packet, now: int): Section
    requires Accepts(cfg, m, p) && p.playersPerTeam <= MAX_NUM_PLAYERS
    requires |OwnTeam(cfg, m.packet).players| == MAX_NUM_PLAYERS == |OpponentTeam(cfg, m.packet).players|
  {
    var oldOwn, own := OwnTeam(cfg, m.packet), OwnTeam(cfg, p);
    var oldOpponent, opponent := OpponentTeam(cfg, m.packet), OpponentTeam(cfg, p);
    var first := FirstSections(cfg, m.published, oldOwn, own, oldOpponent, opponent, p.playersPerTeam, now);
    var coaches := Coaches(first.state, oldOwn, own, oldOpponent, opponent);
    var halves := Halves(coaches.state, m.packet, p);
    var last := LastSections(halves.state, m.mode, m.packet, p, oldOwn, own, now);
    Section(last.state, first.changes + coaches.changes + halves.changes + last.changes)
  }

  function Processed(cfg: Config, m: Monitor, p: Packet, now: int): Monitor
    requires Accepts(cfg, m, p) && p.playersPerTeam <= MAX_NUM_PLAYERS
    requires |OwnTeam(cfg, m.packet).players| == MAX_NUM_PLAYERS == |OpponentTeam(cfg, m.packet).players|
  {
    var c := Changes(cfg, m, p, now);
    Monitor(p, if ModeChanges(m.mode, m.packet, p) then p.mode else m.mode,
            if c.changes != [] then c.state else m.published,
            m.emitted + Notices(cfg, m, p) + PhaseNotice(c.state, m.packet, p) + c.changes)
  }

  function Notices(cfg: Config, m: Monitor, p: Packet): seq<Event> {
    if HasBothTeams(cfg, m.packet) && HasBothTeams(cfg, p)
    then ScoreNotice(OwnTeam(cfg, m.packet), OwnTeam(cfg, p), OpponentTeam(cfg, m.packet), OpponentTeam(cfg, p))
    else []
  }

  /** What an exception leaves behind: a score already announced, and the mode of a packet whose
      mode is unknown, because it is stored before it is looked at. */
  function Abandoned(cfg: Config, m: Monitor, p: Packet): Monitor {
    m.(emitted := m.emitted + Notices(cfg, m, p),
       mode := if HasBothTeams(cfg, m.packet) && HasBothTeams(cfg, p) && PenaltiesKnown(cfg, p) then p.mode else m.mode)
  }

  /** Teams are found, and have all their players, in every packet that is kept. */
  ghost predicate Kept(cfg: Config, p: Packet) {
    LaidOut(p) && HasBothTeams(cfg, p)
  }

  lemma KeptHasPlayers(cfg: Config, p: Packet)
    requires Kept(cfg, p)
    ensures |OwnTeam(cfg, p).players| == MAX_NUM_PLAYERS == |OpponentTeam(cfg, p).players|
  {
  }

  ghost function Received(cfg: Config, m: Monitor, p: Packet, now: int): Monitor
    requires Kept(cfg, m.packet) && LaidOut(p) && p.playersPerTeam <= MAX_NUM_PLAYERS
  {
    KeptHasPlayers(cfg, m.packet);
    if p.version != SUPPORTED_VERSION then m
    else if Accepts(cfg, m, p) then Processed(cfg, m, p, now)
    else Abandoned(cfg, m, p)
  }

  // ----- Replaying events -----

  datatype Table = Table(own: seq<PenaltyReason>, opponent: seq<PenaltyReason>, firstHalf: bool)

  function Mark(reasons: seq<PenaltyReason>, id: nat, reason: PenaltyReason): seq<PenaltyReason> {
    if 1 <= id <= |reasons| then reasons[id - 1 := reason] else reasons
  }

  function MarkFor(t: Table, context: Context, id: nat, reason: PenaltyReason): Table {
    if context == OPPONENT then t.(opponent := Mark(t.opponent, id, reason)) else t.(own := Mark(t.own, id, reason))
  }

  function ReplayOne(t: Table, e: Event): Table {
    match e
    case Penalisation(context, id, _, reason) => MarkFor(t, context, id, reason)
    case Unpenalisation(context, id) => MarkFor(t, context, id, UNPENALISED)
    case HalfTime(firstHalf) => t.(firstHalf := firstHalf)
    case _ => t
  }

  function Replay(t: Table, es: seq<Event>): Table {
    if es == [] then t else ReplayOne(Replay(t, es[..|es| - 1]), es[|es| - 1])
  }

  lemma {:induction false} ReplayAppend(t: Table, a: seq<Event>, b: seq<Event>)
    ensures Replay(t, a + b) == Replay(Replay(t, a), b)
    decreases |b|
  {
    if b == [] {
      assert a + b == a;
    } else {
      ReplayAppend(t, a, b[..|b| - 1]);
      assert (a + b)[..|a + b| - 1] == a + b[..|b| - 1];
    }
  }

  ghost predicate Neutral(es: seq<Event>) {
    forall e :: e in es ==> !e.Penalisation? && !e.Unpenalisation? && !e.HalfTime?
  }

  lemma {:induction false} ReplayNeutral(t: Table, es: seq<Event>)
    requires Neutral(es)
    ensures Replay(t, es) == t
  {
    if es != [] {
      assert es[|es| - 1] in es;
      ReplayNeutral(t, es[..|es| - 1]);
    }
  }

  function Reasons(players: seq<Robot>, n: nat): (rs: seq<PenaltyReason>)
    requires AllKnown(players, n)
    ensures |rs| == n
    ensures forall i :: 0 <= i < n ==> rs[i] == players[i].penaltyState.reason
  {
    seq(n, i requires 0 <= i < n => players[i].penaltyState.reason)
  }

  /** The first k reasons after a packet, the others from before it. */
  function Mixed(old': seq<Robot>, new': seq<Robot>, n: nat, k: nat): (rs: seq<PenaltyReason>)
    requires AllKnown(old', n) && AllKnown(new', n) && k <= n
    ensures |rs| == n
    ensures forall i :: 0 <= i < n ==>
            rs[i] == if i < k then new'[i].penaltyState.reason else old'[i].penaltyState.reason
  {
    seq(n, i requires 0 <= i < n => if i < k then new'[i].penaltyState.reason else old'[i].penaltyState.reason)
  }

  /** One player's change, replayed, turns the player's old reason into the new one. */
  lemma PlayerChangeReplays(t: Table, context: Context, id: nat, old': Robot, new': Robot, now: int)
    requires old'.penaltyState.Penalty? && new'.penaltyState.Penalty?
    requires var rs := if context == OPPONENT then t.opponent else t.own;
      1 <= id <= |rs| && rs[id - 1] == old'.penaltyState.reason
    ensures Replay(t, PlayerChange(context, id, old', new', now)) == MarkFor(t, context, id, new'.penaltyState.reason)
  {
    var es := PlayerChange(context, id, old', new', now);
    if es == [] {
      assert MarkFor(t, context, id, new'.penaltyState.reason) == t;
    } else {
      assert es[..0] == [];
      assert Replay(t, es) == ReplayOne(t, es[0]);
    }
  }

  lemma MixedNext(old': seq<Robot>, new': seq<Robot>, n: nat, k: nat)
    requires AllKnown(old', n) && AllKnown(new', n) && 0 < k <= n
    ensures Mixed(old', new', n, k) == Mark(Mixed(old', new', n, k - 1), k, new'[k - 1].penaltyState.reason)
  {
  }

  lemma BothChangesReplay(cfg: Config, t: Table, es: seq<Event>, id: nat, old': Robot, new': Robot, their: Robot,
                          their': Robot, now: int)
    requires old'.penaltyState.Penalty? && new'.penaltyState.Penalty?
             && their.penaltyState.Penalty? && their'.penaltyState.Penalty?
    requires var u := Replay(t, es);
      && 1 <= id <= |u.own| && u.own[id - 1] == old'.penaltyState.reason
      && 1 <= id <= |u.opponent| && u.opponent[id - 1] == their.penaltyState.reason
    ensures var u := Replay(t, es);
      Replay(t, es + PlayerChange(OwnContext(cfg, id), id, old', new', now)
        + PlayerChange(OPPONENT, id, their, their', now))
      == Table(Mark(u.own, id, new'.penaltyState.reason), Mark(u.opponent, id, their'.penaltyState.reason), u.firstHalf)
  {
    var ours := PlayerChange(OwnContext(cfg, id), id, old', new', now);
    ReplayAppend(t, es, ours);
    PlayerChangeReplays(Replay(t, es), OwnContext(cfg, id), id, old', new', now);
    ReplayAppend(t, es + ours, PlayerChange(OPPONENT, id, their, their', now));
    PlayerChangeReplays(Replay(t, es + ours), OPPONENT, id, their, their', now);
  }

  lemma {:induction false} PlayerChangesReplay(cfg: Config, oldOwn: seq<Robot>, own: seq<Robot>,
                                               oldOpponent: seq<Robot>, opponent: seq<Robot>,
                                               n: nat, k: nat, now: int, half: bool)
    requires AllKnown(oldOwn, n) && AllKnown(own, n) && AllKnown(oldOpponent, n) && AllKnown(opponent, n) && k <= n
    ensures Replay(Table(Reasons(oldOwn, n), Reasons(oldOpponent, n), half),
                   PlayerChanges(cfg, oldOwn, own, oldOpponent, opponent, k, now))
         == Table(Mixed(oldOwn, own, n, k), Mixed(oldOpponent, opponent, n, k), half)
  {
    if k == 0 {
      assert Mixed(oldOwn, own, n, 0) == Reasons(oldOwn, n);
      assert Mixed(oldOpponent, opponent, n, 0) == Reasons(oldOpponent, n);
    } else {
      PlayerChangesReplay(cfg, oldOwn, own, oldOpponent, opponent, n, k - 1, now, half);
      BothChangesReplay(cfg, Table(Reasons(oldOwn, n), Reasons(oldOpponent, n), half),
                        PlayerChanges(cfg, oldOwn, own, oldOpponent, opponent, k - 1, now), k,
                        oldOwn[k - 1], own[k - 1], oldOpponent[k - 1], opponent[k - 1], now);
      MixedNext(oldOwn, own, n, k);
      MixedNext(oldOpponent, opponent, n, k);
    }
  }

  ghost predicate Readable(cfg: Config, p: Packet, n: nat) {
    && Kept(cfg, p) && n <= MAX_NUM_PLAYERS
    && AllKnown(OwnTeam(cfg, p).players, n) && AllKnown(OpponentTeam(cfg, p).players, n)
  }

  /** The penalties of the first n players of both teams and the half, as a packet has them. */
  ghost function TableOf(cfg: Config, p: Packet, n: nat): Table
    requires Readable(cfg, p, n)
  {
    Table(Reasons(OwnTeam(cfg, p).players, n), Reasons(OpponentTeam(cfg, p).players, n), p.firstHalf)
  }

  lemma SectionsAreNeutral(s: GameState, mode: Mode, m: Packet, p: Packet, oldOwn: Team, own: Team,
                           oldOpponent: Team, opponent: Team, now: int)
    ensures Neutral(Scores(s, oldOwn, own, oldOpponent, opponent).changes)
    ensures Neutral(Coaches(s, oldOwn, own, oldOpponent, opponent).changes)
    ensures Neutral(LastSections(s, mode, m, p, oldOwn, own, now).changes)
    ensures Neutral(ScoreNotice(oldOwn, own, oldOpponent, opponent))
    ensures Neutral(PhaseNotice(s, m, p))
  {
    var middle := MiddleSections(s, m, p, oldOwn, own, now);
    var modes := Modes(middle.state, mode, m, p);
    MiddleIsNeutral(s, m, p, oldOwn, own, now);
    PhasesAreNeutral(modes.state, m, p, now);
    NeutralConcat(middle.changes, modes.changes);
    NeutralConcat(middle.changes + modes.changes, Phases(modes.state, m, p, now).changes);
  }

  lemma MiddleIsNeutral(s: GameState, m: Packet, p: Packet, oldOwn: Team, own: Team, now: int)
    ensures Neutral(MiddleSections(s, m, p, oldOwn, own, now).changes)
  {
  }

  lemma PhasesAreNeutral(s: GameState, m: Packet, p: Packet, now: int)
    ensures Neutral(Phases(s, m, p, now).changes)
  {
  }

  lemma NeutralConcat(a: seq<Event>, b: seq<Event>)
    requires Neutral(a) && Neutral(b)
    ensures Neutral(a + b)
  {
  }

  lemma HalvesReplay(t: Table, s: GameState, m: Packet, p: Packet)
    requires t.firstHalf == m.firstHalf
    ensures Replay(t, Halves(s, m, p).changes) == t.(firstHalf := p.firstHalf)
  {
    var es := Halves(s, m, p).changes;
    if es != [] {
      assert es[..0] == [];
      assert Replay(t, es) == ReplayOne(t, es[0]);
    }
  }

  lemma ReplayAround(t: Table, a: seq<Event>, b: seq<Event>)
    ensures Neutral(a) ==> Replay(t, a + b) == Replay(t, b)
    ensures Neutral(b) ==> Replay(t, a + b) == Replay(t, a)
  {
    ReplayAppend(t, a, b);
    if Neutral(a) {
      ReplayNeutral(t, a);
    }
    if Neutral(b) {
      ReplayNeutral(Replay(t, a), b);
    }
  }

  lemma FirstSectionsReplay(cfg: Config, s: GameState, oldOwn: Team, own: Team, oldOpponent: Team, opponent: Team,
                            n: nat, now: int, half: bool)
    requires AllKnown(own.players, n) && AllKnown(opponent.players, n)
    requires AllKnown(oldOwn.players, n) && AllKnown(oldOpponent.players, n)
    ensures Replay(Table(Reasons(oldOwn.players, n), Reasons(oldOpponent.players, n), half),
                   FirstSections(cfg, s, oldOwn, own, oldOpponent, opponent, n, now).changes)
         == Table(Reasons(own.players, n), Reasons(opponent.players, n), half)
  {
    var t := Table(Reasons(oldOwn.players, n), Reasons(oldOpponent.players, n), half);
    assert Neutral(Scores(s, oldOwn, own, oldOpponent, opponent).changes);
    ReplayAround(t, Scores(s, oldOwn, own, oldOpponent, opponent).changes,
                 PlayerChanges(cfg, oldOwn.players, own.players, oldOpponent.players, opponent.players, n, now));
    PlayerChangesReplay(cfg, oldOwn.players, own.players, oldOpponent.players, opponent.players, n, n, now, half);
    assert Mixed(oldOwn.players, own.players, n, n) == Reasons(own.players, n);
    assert Mixed(oldOpponent.players, opponent.players, n, n) == Reasons(opponent.players, n);
  }

  lemma FourReplay(t: Table, a: seq<Event>, b: seq<Event>, c: seq<Event>, d: seq<Event>)
    requires Neutral(b) && Neutral(d)
    ensures Replay(t, a + b + c + d) == Replay(Replay(t, a), c)
  {
    ReplayAround(t, a + b + c, d);
    ReplayAppend(t, a + b, c);
    ReplayAround(t, a, b);
  }

  /** Two packets in a row: replaying what the second announces takes the first one's penalties
      and half to the second one's. */
  lemma ChangesReplay(cfg: Config, m: Monitor, p: Packet, now: int, n: nat)
    requires Accepts(cfg, m, p) && p.playersPerTeam == n
    requires Readable(cfg, m.packet, n) && Readable(cfg, p, n)
    ensures Replay(TableOf(cfg, m.packet, n), Changes(cfg, m, p, now).changes) == TableOf(cfg, p, n)
  {
    var oldOwn, own := OwnTeam(cfg, m.packet), OwnTeam(cfg, p);
    var oldOpponent, opponent := OpponentTeam(cfg, m.packet), OpponentTeam(cfg, p);
    var t := TableOf(cfg, m.packet, n);
    var first := FirstSections(cfg, m.published, oldOwn, own, oldOpponent, opponent, n, now);
    var coaches := Coaches(first.state, oldOwn, own, oldOpponent, opponent);
    var halves := Halves(coaches.state, m.packet, p);
    var last := LastSections(halves.state, m.mode, m.packet, p, oldOwn, own, now);
    assert Neutral(coaches.changes) by {
      SectionsAreNeutral(first.state, m.mode, m.packet, p, oldOwn, own, oldOpponent, opponent, now);
    }
    assert Neutral(last.changes) by {
      SectionsAreNeutral(halves.state, m.mode, m.packet, p, oldOwn, own, oldOpponent, opponent, now);
    }
    FourReplay(t, first.changes, coaches.changes, halves.changes, last.changes);
    FirstSectionsReplay(cfg, m.published, oldOwn, own, oldOpponent, opponent, n, now, m.packet.firstHalf);
    HalvesReplay(Replay(t, first.changes), coaches.state, m.packet, p);
  }

  // ----- Runs -----

  datatype Arrival = Arrival(packet: Packet, now: int)

  /** Packets as they come off the network, all for teams of n players. */
  ghost predicate Arrives(a: Arrival, n: nat) {
    LaidOut(a.packet) && a.packet.playersPerTeam == n
  }

  ghost function Run(cfg: Config, m: Monitor, arrivals: seq<Arrival>, n: nat): (m': Monitor)
    requires Readable(cfg, m.packet, n) && forall i :: 0 <= i < |arrivals| ==> Arrives(arrivals[i], n)
    ensures Readable(cfg, m'.packet, n)
    decreases |arrivals|
  {
    if arrivals == [] then m else
      assert Arrives(arrivals[0], n);
      ReceivedIsReadable(cfg, m, arrivals[0].packet, arrivals[0].now, n);
      Run(cfg, Received(cfg, m, arrivals[0].packet, arrivals[0].now), arrivals[1..], n)
  }

  lemma ReceivedIsReadable(cfg: Config, m: Monitor, p: Packet, now: int, n: nat)
    requires Readable(cfg, m.packet, n) && LaidOut(p) && p.playersPerTeam == n
    ensures Readable(cfg, Received(cfg, m, p, now).packet, n)
  {
  }

  /** Events so far, replayed from a table, give the last accepted packet's table. */
  ghost predicate InStep(cfg: Config, m: Monitor, n: nat, t: Table)
    requires Readable(cfg, m.packet, n)
  {
    Replay(t, m.emitted) == TableOf(cfg, m.packet, n)
  }

  lemma ReceivedInStep(cfg: Config, m: Monitor, p: Packet, now: int, n: nat, t: Table)
    requires Readable(cfg, m.packet, n) && LaidOut(p) && p.playersPerTeam == n && InStep(cfg, m, n, t)
    ensures Readable(cfg, Received(cfg, m, p, now).packet, n) && InStep(cfg, Received(cfg, m, p, now), n, t)
  {
    var notices := Notices(cfg, m, p);
    assert Neutral(notices);
    ReplayAround(t, m.emitted, notices);
    if p.version == SUPPORTED_VERSION && Accepts(cfg, m, p) {
      var c := Changes(cfg, m, p, now);
      var phase := PhaseNotice(c.state, m.packet, p);
      assert Neutral(phase);
      ReplayAround(t, m.emitted + notices, phase);
      ReplayAppend(t, m.emitted + notices + phase, c.changes);
      ChangesReplay(cfg, m, p, now, n);
    }
  }

  /** Over every run of packets, good or bad, replaying the penalisation, unpenalisation and half
      time events gives the penalties and the half of the last accepted packet. */
  lemma {:induction false} RunReplays(cfg: Config, m: Monitor, arrivals: seq<Arrival>, n: nat, t: Table)
    requires Readable(cfg, m.packet, n) && forall i :: 0 <= i < |arrivals| ==> Arrives(arrivals[i], n)
    requires InStep(cfg, m, n, t)
    ensures InStep(cfg, Run(cfg, m, arrivals, n), n, t)
    decreases |arrivals|
  {
    if arrivals != [] {
      var a := arrivals[0];
      assert Arrives(a, n);
      ReceivedIsReadable(cfg, m, a.packet, a.now, n);
      ReceivedInStep(cfg, m, a.packet, a.now, n, t);
      RunReplays(cfg, Received(cfg, m, a.packet, a.now), arrivals[1..], n, t);
    }
  }

  // ----- The published state -----

  lemma MiddleSectionsKeep(s: GameState, old': Packet, new': Packet, oldOwn: Team, own: Team, now: int)
    ensures var t := MiddleSections(s, old', new', oldOwn, own, now).state;
      && t.team == s.team && t.opponent == s.opponent && t.firstHalf == s.firstHalf
      && t.mode == s.mode && t.phase == s.phase
  {
  }

  lemma PhasesKeep(s: GameState, old': Packet, new': Packet, now: int)
    ensures var t := Phases(s, old', new', now).state;
      t.team == s.team && t.opponent == s.opponent && t.firstHalf == s.firstHalf && t.mode == s.mode
  {
  }

  lemma LastSectionsKeep(s: GameState, mode: Mode, old': Packet, new': Packet, oldOwn: Team, own: Team, now: int)
    ensures var l := LastSections(s, mode, old', new', oldOwn, own, now);
      && l.state.team == s.team && l.state.opponent == s.opponent && l.state.firstHalf == s.firstHalf
      && l.state.mode == (if ModeChanges(mode, old', new') then new'.mode else s.mode)
      && (ModeChanges(mode, old', new') ==> l.changes != [])
  {
    var middle := MiddleSections(s, old', new', oldOwn, own, now);
    MiddleSectionsKeep(s, old', new', oldOwn, own, now);
    PhasesKeep(Modes(middle.state, mode, old', new').state, old', new', now);
  }

  lemma PhasesMove(s: GameState, old': Packet, new': Packet, now: int)
    requires new'.state.Play? && new'.state.phase != TIMED_OUT
    ensures var l := Phases(s, old', new', now);
      && l.state.phase == (if TimeoutStarts(old', new') then TIMED_OUT
                           else if StateMatters(old', new') then new'.state.phase else s.phase)
      && (TimeoutStarts(old', new') || StateMatters(old', new') ==> l.changes != [])
  {
  }

  lemma LastSectionsPhase(s: GameState, mode: Mode, old': Packet, new': Packet, oldOwn: Team, own: Team, now: int)
    requires new'.state.Play? && new'.state.phase != TIMED_OUT
    ensures var l := LastSections(s, mode, old', new', oldOwn, own, now);
      && l.state.phase == (if TimeoutStarts(old', new') then TIMED_OUT
                           else if StateMatters(old', new') then new'.state.phase else s.phase)
      && (TimeoutStarts(old', new') || StateMatters(old', new') ==> l.changes != [])
  {
    var middle := MiddleSections(s, old', new', oldOwn, own, now);
    MiddleSectionsKeep(s, old', new', oldOwn, own, now);
    PhasesMove(Modes(middle.state, mode, old', new').state, old', new', now);
  }

  /** The state a packet leads to, field by field, whether it is published or not. */
  lemma ChangedState(cfg: Config, m: Monitor, p: Packet, now: int, n: nat)
    requires Accepts(cfg, m, p) && p.playersPerTeam == n
    requires Readable(cfg, m.packet, n) && Readable(cfg, p, n)
    ensures var c := Changes(cfg, m, p, now);
      && c.state.team.players == Roster(OwnTeam(cfg, p).players, n, now)
      && c.state.opponent.players == Roster(OpponentTeam(cfg, p).players, n, now)
      && c.state.firstHalf == (if m.packet.firstHalf != p.firstHalf then p.firstHalf else m.published.firstHalf)
      && c.state.mode == (if ModeChanges(m.mode, m.packet, p) then p.mode else m.published.mode)
      && (ModeChanges(m.mode, m.packet, p) ==> c.changes != [])
      && (m.packet.firstHalf != p.firstHalf ==> c.changes != [])
  {
    var oldOwn, own := OwnTeam(cfg, m.packet), OwnTeam(cfg, p);
    var oldOpponent, opponent := OpponentTeam(cfg, m.packet), OpponentTeam(cfg, p);
    var first := FirstSections(cfg, m.published, oldOwn, own, oldOpponent, opponent, n, now);
    var coaches := Coaches(first.state, oldOwn, own, oldOpponent, opponent);
    var halves := Halves(coaches.state, m.packet, p);
    LastSectionsKeep(halves.state, m.mode, m.packet, p, oldOwn, own, now);
  }

  lemma FirstKeepPhase(cfg: Config, s: GameState, oldOwn: Team, own: Team, oldOpponent: Team, opponent: Team,
                       old': Packet, new': Packet, n: nat, now: int)
    requires AllKnown(own.players, n) && AllKnown(opponent.players, n)
             && n <= |oldOwn.players| && n <= |oldOpponent.players|
    ensures var first := FirstSections(cfg, s, oldOwn, own, oldOpponent, opponent, n, now);
      Halves(Coaches(first.state, oldOwn, own, oldOpponent, opponent).state, old', new').state.phase == s.phase
  {
    hide Scores, Coaches, Halves, PlayerChanges, Roster;
    ScoresKeepPhase(s, oldOwn, own, oldOpponent, opponent);
    var first := FirstSections(cfg, s, oldOwn, own, oldOpponent, opponent, n, now);
    CoachesKeepPhase(first.state, oldOwn, own, oldOpponent, opponent);
    HalvesKeepPhase(Coaches(first.state, oldOwn, own, oldOpponent, opponent).state, old', new');
  }

  lemma ScoresKeepPhase(s: GameState, oldOwn: Team, own: Team, oldOpponent: Team, opponent: Team)
    ensures Scores(s, oldOwn, own, oldOpponent, opponent).state.phase == s.phase
  {
  }

  lemma CoachesKeepPhase(s: GameState, oldOwn: Team, own: Team, oldOpponent: Team, opponent: Team)
    ensures Coaches(s, oldOwn, own, oldOpponent, opponent).state.phase == s.phase
  {
  }

  lemma HalvesKeepPhase(s: GameState, old': Packet, new': Packet)
    ensures Halves(s, old', new').state.phase == s.phase
  {
  }

  lemma ChangedPhase(cfg: Config, m: Monitor, p: Packet, now: int, n: nat)
    requires Accepts(cfg, m, p) && p.playersPerTeam == n && p.state.Play?
    requires Readable(cfg, m.packet, n) && Readable(cfg, p, n)
    ensures var c := Changes(cfg, m, p, now);
      && c.state.phase == (if TimeoutStarts(m.packet, p) then TIMED_OUT
                           else if StateMatters(m.packet, p) then p.state.phase else m.published.phase)
      && (TimeoutStarts(m.packet, p) || StateMatters(m.packet, p) ==> c.changes != [])
  {
    hide FirstSections, Coaches, Halves, LastSections, Roster, TimeoutStarts, StateMatters;
    var oldOwn, own := OwnTeam(cfg, m.packet), OwnTeam(cfg, p);
    var oldOpponent, opponent := OpponentTeam(cfg, m.packet), OpponentTeam(cfg, p);
    var first := FirstSections(cfg, m.published, oldOwn, own, oldOpponent, opponent, n, now);
    var coaches := Coaches(first.state, oldOwn, own, oldOpponent, opponent);
    var halves := Halves(coaches.state, m.packet, p);
    FirstKeepPhase(cfg, m.published, oldOwn, own, oldOpponent, opponent, m.packet, p, n, now);
    LastSectionsPhase(halves.state, m.mode, m.packet, p, oldOwn, own, now);
  }

  ghost predicate Lists(roster: seq<RobotState>, players: seq<Robot>, n: nat)
    requires AllKnown(players, n)
  {
    |roster| == n && forall i :: 0 <= i < n ==>
      roster[i].id == i + 1 && roster[i].penaltyReason == players[i].penaltyState.reason
  }

  /** The published state shows a packet's penalties. */
  ghost predicate ShowsPenalties(cfg: Config, s: GameState, p: Packet, n: nat)
    requires Readable(cfg, p, n)
  {
    Lists(s.team.players, OwnTeam(cfg, p).players, n) && Lists(s.opponent.players, OpponentTeam(cfg, p).players, n)
  }

  /** Holds from the start on: the half is right, the mode is once it is known, and so are the penalties
      once a packet has been accepted. */
  ghost predicate Agrees(cfg: Config, m: Monitor, n: nat)
    requires Readable(cfg, m.packet, n)
  {
    && m.published.firstHalf == m.packet.firstHalf
    && (!m.mode.UnknownMode? ==> m.published.mode == m.mode)
    && (m.packet.state.Play? ==> ShowsPenalties(cfg, m.published, m.packet, n))
  }

  lemma ReasonsTell(cfg: Config, s: GameState, p: Packet, q: Packet, n: nat)
    requires Readable(cfg, p, n) && Readable(cfg, q, n) && TableOf(cfg, p, n) == TableOf(cfg, q, n)
    requires ShowsPenalties(cfg, s, p, n)
    ensures ShowsPenalties(cfg, s, q, n)
  {
    forall i | 0 <= i < n
      ensures OwnTeam(cfg, p).players[i].penaltyState == OwnTeam(cfg, q).players[i].penaltyState
      ensures OpponentTeam(cfg, p).players[i].penaltyState == OpponentTeam(cfg, q).players[i].penaltyState
    {
      assert TableOf(cfg, p, n).own[i] == TableOf(cfg, q, n).own[i];
      assert TableOf(cfg, p, n).opponent[i] == TableOf(cfg, q, n).opponent[i];
    }
  }

  /** Although the state is published only when something is announced, it always shows the
      penalties and the half of the last accepted packet, and the mode. */
  lemma ReceivedAgrees(cfg: Config, m: Monitor, p: Packet, now: int, n: nat)
    requires Readable(cfg, m.packet, n) && LaidOut(p) && p.playersPerTeam == n && p.state.Play?
    requires Agrees(cfg, m, n)
    ensures Readable(cfg, Received(cfg, m, p, now).packet, n) && Agrees(cfg, Received(cfg, m, p, now), n)
  {
    if p.version == SUPPORTED_VERSION && Accepts(cfg, m, p) {
      var c := Changes(cfg, m, p, now);
      ChangedState(cfg, m, p, now, n);
      ChangedPhase(cfg, m, p, now, n);
      if c.changes == [] {
        ChangesReplay(cfg, m, p, now, n);
        ReasonsTell(cfg, m.published, m.packet, p, n);
      }
    }
  }

  // ----- The mode -----

  /** The mode kept is the packet's when neither it nor the one before is in a timeout, and is
      untouched otherwise. The published mode is the same once there is a known one. */
  lemma ModeFollows(cfg: Config, m: Monitor, p: Packet, now: int, n: nat)
    requires Readable(cfg, m.packet, n) && LaidOut(p) && p.playersPerTeam == n
    requires p.version == SUPPORTED_VERSION && Accepts(cfg, m, p)
    ensures var m' := Received(cfg, m, p, now);
      && (m.packet.mode != TIMEOUT && p.mode != TIMEOUT ==> m'.mode == p.mode)
      && (m.packet.mode == TIMEOUT || p.mode == TIMEOUT ==> m'.mode == m.mode)
      && ((!m.mode.UnknownMode? ==> m.published.mode == m.mode) ==> !m'.mode.UnknownMode? ==>
        m'.published.mode == m'.mode)
  {
    ChangedState(cfg, m, p, now, n);
  }

  /** A packet with an unknown mode is refused, and yet its mode is kept, exactly when everything
      else about it can be read and neither it nor the last one is in a timeout. */
  lemma UnknownModeSticks(cfg: Config, m: Monitor, p: Packet, now: int)
    requires Kept(cfg, m.packet) && LaidOut(p) && p.playersPerTeam <= MAX_NUM_PLAYERS
    requires p.version == SUPPORTED_VERSION && p.mode.UnknownMode? && p.mode != m.mode
    ensures Received(cfg, m, p, now).mode == p.mode <==>
            HasBothTeams(cfg, p) && PenaltiesKnown(cfg, p) && m.packet.mode != TIMEOUT
    ensures Received(cfg, m, p, now).mode == p.mode ==> Received(cfg, m, p, now).packet == m.packet
  {
  }

  // ----- The phase -----

  /** Whether a timeout has been running since it was called, with no change of state. */
  predicate Holds(old': Packet, new': Packet, held: bool) {
    TimeoutStarts(old', new') || (held && !StateMatters(old', new'))
  }

  /** The published phase is TIMED_OUT during such a timeout, and otherwise the packet's state. */
  ghost predicate PhaseInStep(m: Monitor, held: bool) {
    && (held ==> m.packet.mode == TIMEOUT && m.published.phase == TIMED_OUT)
    && (!held && m.packet.state.Play? ==> m.published.phase == m.packet.state.phase)
  }

  lemma ReceivedPhase(cfg: Config, m: Monitor, p: Packet, now: int, n: nat, held: bool)
    requires Readable(cfg, m.packet, n) && LaidOut(p) && p.playersPerTeam == n && p.state.Play?
    requires PhaseInStep(m, held)
    ensures var m' := Received(cfg, m, p, now);
      PhaseInStep(m', if p.version == SUPPORTED_VERSION && Accepts(cfg, m, p) then Holds(m.packet, p, held) else held)
  {
    if p.version == SUPPORTED_VERSION && Accepts(cfg, m, p) {
      ChangedPhase(cfg, m, p, now, n);
    }
  }

  /** While the published phase shows a timeout just when there is one, the next packet keeps it
      so exactly if it does not change the state in the middle of a timeout. */
  lemma PhaseShowsTimeouts(cfg: Config, m: Monitor, p: Packet, now: int, n: nat, held: bool)
    requires Readable(cfg, m.packet, n) && LaidOut(p) && p.playersPerTeam == n && p.state.Play?
    requires p.version == SUPPORTED_VERSION && Accepts(cfg, m, p)
    requires PhaseInStep(m, held) && (held <==> m.packet.mode == TIMEOUT)
    ensures var m' := Received(cfg, m, p, now);
      (m'.published.phase == TIMED_OUT <==> p.mode == TIMEOUT) <==>
      !(m.packet.mode == TIMEOUT && p.mode == TIMEOUT && p.state != m.packet.state)
  {
    ReceivedPhase(cfg, m, p, now, n, held);
  }

  // ----- Whole runs -----

  ghost function Held(cfg: Config, m: Monitor, arrivals: seq<Arrival>, n: nat, held: bool): bool
    requires Readable(cfg, m.packet, n) && forall i :: 0 <= i < |arrivals| ==> Arrives(arrivals[i], n)
    decreases |arrivals|
  {
    if arrivals == [] then held else
      var p, now := arrivals[0].packet, arrivals[0].now;
      assert Arrives(arrivals[0], n);
      ReceivedIsReadable(cfg, m, p, now, n);
      Held(cfg, Received(cfg, m, p, now), arrivals[1..], n,
           if p.version == SUPPORTED_VERSION && Accepts(cfg, m, p) then Holds(m.packet, p, held) else held)
  }

  /** Over every run of packets with declared states, good or bad packets alike: the published
      state shows the mode, and the penalties and the half of the last accepted packet, and its phase is
      TIMED_OUT during a timeout without a change of state and otherwise that packet's state. */
  lemma {:induction false} RunAgrees(cfg: Config, m: Monitor, arrivals: seq<Arrival>, n: nat, held: bool)
    requires Readable(cfg, m.packet, n)
    requires forall i :: 0 <= i < |arrivals| ==> Arrives(arrivals[i], n) && arrivals[i].packet.state.Play?
    requires Agrees(cfg, m, n) && PhaseInStep(m, held)
    ensures Agrees(cfg, Run(cfg, m, arrivals, n), n)
    ensures PhaseInStep(Run(cfg, m, arrivals, n), Held(cfg, m, arrivals, n, held))
    decreases |arrivals|
  {
    if arrivals != [] {
      var p, now := arrivals[0].packet, arrivals[0].now;
      assert Arrives(arrivals[0], n);
      ReceivedIsReadable(cfg, m, p, now, n);
      ReceivedAgrees(cfg, m, p, now, n);
      ReceivedPhase(cfg, m, p, now, n, held);
      RunAgrees(cfg, Received(cfg, m, p, now), arrivals[1..], n,
                if p.version == SUPPORTED_VERSION && Accepts(cfg, m, p) then Holds(m.packet, p, held) else held);
    }
  }

  // ----- The start -----

  function InitialPlayers(): (players: seq<Robot>)
    ensures |players| == MAX_NUM_PLAYERS && AllKnown(players, MAX_NUM_PLAYERS)
  {
    seq(MAX_NUM_PLAYERS, i requires 0 <= i < MAX_NUM_PLAYERS =>
      Robot(Penalty(if i <= ACTIVE_PLAYERS_PER_TEAM then UNPENALISED else SUBSTITUTE), 0))
  }

  function InitialTeam(id: nat): Team {
    Team(id, UnknownColour(255), 0, seq(40, _ => '\0'), InitialPlayers())
  }

  function InitialPacket(cfg: Config): Packet {
    Packet(SUPPORTED_VERSION, PLAYERS_PER_TEAM, UnknownState(255), true, UnknownColour(255), UnknownMode(255),
           UnknownColour(255), -1, 0, 0, [InitialTeam(cfg.teamId), InitialTeam(0)])
  }

  /** The fields the initial state leaves out are arbitrary. */
  predicate IsInitialState(cfg: Config, s: GameState) {
    && s.phase == INITIAL && s.mode == NORMAL && s.firstHalf && !s.kickedOutByUs && !s.ourKickOff
    && s.team.teamId == cfg.teamId && s.opponent.teamId == 0 && s.team.players == [] && s.opponent.players == []
  }

  function InitialMonitor(cfg: Config, s: GameState): Monitor {
    Monitor(InitialPacket(cfg), UnknownMode(255), s, [])
  }

  /** With team id 0 the initial packet has no opponent, so no packet is ever accepted and none
      changes anything; with any other id the teams are found and everything is in step. */
  lemma StartsInStep(cfg: Config, s: GameState, n: nat)
    requires IsInitialState(cfg, s) && n <= MAX_NUM_PLAYERS
    ensures var m := InitialMonitor(cfg, s);
      if cfg.teamId == 0 then forall p :: !Accepts(cfg, m, p) && Abandoned(cfg, m, p) == m
      else Readable(cfg, m.packet, n) && Agrees(cfg, m, n) && PhaseInStep(m, false)
           && InStep(cfg, m, n, TableOf(cfg, m.packet, n))
  {
    var m := InitialMonitor(cfg, s);
    var teams := m.packet.teams;
    if cfg.teamId == 0 {
      assert FirstTeam(teams, cfg.teamId, false).None?;
      forall p ensures !Accepts(cfg, m, p) && Abandoned(cfg, m, p) == m {
      }
    } else {
      assert teams[0].teamId == cfg.teamId && teams[1].teamId != cfg.teamId;
      assert LaidOut(m.packet);
    }
  }

  /** From the start: the events of any run of packets replay to the last accepted packet's
      penalties and half, and the published state shows them. */
  lemma EveryRunIsInStep(cfg: Config, s: GameState, arrivals: seq<Arrival>, n: nat)
    requires cfg.teamId != 0 && IsInitialState(cfg, s) && n <= MAX_NUM_PLAYERS
    requires forall i :: 0 <= i < |arrivals| ==> Arrives(arrivals[i], n) && arrivals[i].packet.state.Play?
    ensures var m := InitialMonitor(cfg, s);
      && Readable(cfg, m.packet, n)
      && InStep(cfg, Run(cfg, m, arrivals, n), n, TableOf(cfg, m.packet, n))
      && Agrees(cfg, Run(cfg, m, arrivals, n), n)
      && PhaseInStep(Run(cfg, m, arrivals, n), Held(cfg, m, arrivals, n, false))
  {
    var m := InitialMonitor(cfg, s);
    StartsInStep(cfg, s, n);
    RunReplays(cfg, m, arrivals, n, TableOf(cfg, m.packet, n));
    RunAgrees(cfg, m, arrivals, n, false);
  }

  // ----- The object -----

  class GameController {
    const cfg: Config
    var packet: Packet
    var mode: Mode
    var published: GameState
    var emitted: seq<Event>

    ghost function Now(): Monitor
      reads this
    {
      Monitor(packet, mode, published, emitted)
    }

    constructor (cfg: Config, initialState: GameState)
      requires IsInitialState(cfg, initialState)
      ensures this.cfg == cfg && Now() == InitialMonitor(cfg, initialState)
    {
      this.cfg := cfg;
      packet := InitialPacket(cfg);
      mode := UnknownMode(255);
      published := initialState;
      emitted := [];
    }

    /** The first team with our id (or without it); None stands for the exception. */
    method FindTeam(p: Packet, own: bool) returns (t: Option<Team>)
      ensures t == FirstTeam(p.teams, cfg.teamId, own)
    {
      for i := 0 to |p.teams|
        invariant FirstTeam(p.teams, cfg.teamId, own) == FirstTeam(p.teams[i..], cfg.teamId, own)
      {
        assert p.teams[i..][1..] == p.teams[i + 1..];
        if (p.teams[i].teamId == cfg.teamId) == own {
          return Some(p.teams[i]);
        }
      }
      return None;
    }

    /** Rebuilds the player lists and collects the changes of the players, one player at a time;
        a penalty that is not known ends it all, as the exception does. */
    method ProcessPlayers(oldOwn: Team, own: Team, oldOpponent: Team, opponent: Team, n: nat, now: int)
      returns (known: bool, ours: seq<RobotState>, theirs: seq<RobotState>, changes: seq<Event>)
      requires n <= |own.players| && n <= |opponent.players| && n <= |oldOwn.players| && n <= |oldOpponent.players|
      ensures known <==> AllKnown(own.players, n) && AllKnown(opponent.players, n)
      ensures known ==>
        && ours == Roster(own.players, n, now) && theirs == Roster(opponent.players, n, now)
        && changes == PlayerChanges(cfg, oldOwn.players, own.players, oldOpponent.players, opponent.players, n, now)
    {
      known, ours, theirs, changes := true, [], [], [];
      for i := 0 to n
        invariant known && AllKnown(own.players, i) && AllKnown(opponent.players, i)
        invariant ours == Roster(own.players, i, now) && theirs == Roster(opponent.players, i, now)
        invariant changes
               == PlayerChanges(cfg, oldOwn.players, own.players, oldOpponent.players, opponent.players, i, now)
      {
        var playerId := i + 1;
        var newOwn, newOpponent := own.players[i], opponent.players[i];
        if newOwn.penaltyState.UnknownPenalty? || newOpponent.penaltyState.UnknownPenalty? {
          return false, ours, theirs, changes;
        }
        ours := ours + [RobotState(playerId, newOwn.penaltyState.reason, now + newOwn.penalisedTimeLeft)];
        theirs := theirs + [RobotState(playerId, newOpponent.penaltyState.reason, now + newOpponent.penalisedTimeLeft)];
        changes := changes + PlayerChange(OwnContext(cfg, playerId), playerId, oldOwn.players[i], newOwn, now);
        changes := changes + PlayerChange(OPPONENT, playerId, oldOpponent.players[i], newOpponent, now);
      }
    }

    /** Takes the mode over when it changes outside timeouts; an unknown one is an error, found out too
        late. */
    method TakeMode(p: Packet) returns (known: bool)
      modifies this`mode
      ensures known <==> !(ModeChanges(old(mode), packet, p) && p.mode.UnknownMode?)
      ensures mode == if ModeChanges(old(mode), packet, p) then p.mode else old(mode)
    {
      if p.mode != mode && packet.mode != TIMEOUT && p.mode != TIMEOUT {
        mode := p.mode;
        if p.mode.UnknownMode? {
          return false;
        }
      }
      return true;
    }

    /** Announces the phase, and then the changes and the new state if there are any. */
    method Publish(last: Section, stateChanges: seq<Event>, p: Packet)
      modifies this`published, this`emitted
      ensures published == if stateChanges != [] then last.state else old(published)
      ensures emitted == old(emitted) + PhaseNotice(last.state, packet, p) + stateChanges
    {
      emitted := emitted + PhaseNotice(last.state, packet, p);
      if stateChanges != [] {
        published := last.state;
        emitted := emitted + stateChanges;
      }
    }

    /** Processes a packet against the last one; false stands for an exception on the way. */
    method Process(p: Packet, now: int) returns (ok: bool)
      requires Kept(cfg, packet) && LaidOut(p) && p.playersPerTeam <= MAX_NUM_PLAYERS
      modifies this`mode, this`published, this`emitted
      ensures ok == Accepts(cfg, old(Now()), p)
      ensures ok ==> |OwnTeam(cfg, packet).players| == MAX_NUM_PLAYERS == |OpponentTeam(cfg, packet).players|
                     && Now().(packet := p) == Processed(cfg, old(Now()), p, now)
      ensures !ok ==> Now() == Abandoned(cfg, old(Now()), p)
    {
      hide Scores, Coaches, Halves, LastSections, PlayerChanges, Roster, ScoreNotice, PhaseNotice, FirstTeam, AllKnown,
           ModeChanges;
      KeptHasPlayers(cfg, packet);
      ghost var m := Now();
      var oldOwn := FindTeam(packet, true);
      var newOwn := FindTeam(p, true);
      var oldOpponent := FindTeam(packet, false);
      var newOpponent := FindTeam(p, false);
      if oldOwn.None? || newOwn.None? || oldOpponent.None? || newOpponent.None? {
        return false;
      }
      KeptHasPlayers(cfg, p);
      emitted := emitted + ScoreNotice(oldOwn.value, newOwn.value, oldOpponent.value, newOpponent.value);
      var known, ours, theirs, playerChanges :=
        ProcessPlayers(oldOwn.value, newOwn.value, oldOpponent.value, newOpponent.value, p.playersPerTeam, now);
      if !known {
        return false;
      }
      var scores := Scores(published, oldOwn.value, newOwn.value, oldOpponent.value, newOpponent.value);
      var state := scores.state.(team := scores.state.team.(players := ours),
                                 opponent := scores.state.opponent.(players := theirs));
      var coaches := Coaches(state, oldOwn.value, newOwn.value, oldOpponent.value, newOpponent.value);
      var halves := Halves(coaches.state, packet, p);
      var last := LastSections(halves.state, mode, packet, p, oldOwn.value, newOwn.value, now);
      var taken := TakeMode(p);
      if !taken {
        return false;
      }
      var stateChanges := scores.changes + playerChanges + coaches.changes + halves.changes + last.changes;
      assert Section(last.state, stateChanges) == Changes(cfg, m, p, now);
      Publish(last, stateChanges, p);
      return true;
    }

    /** One packet off the network. */
    method Receive(p: Packet, now: int)
      requires Kept(cfg, packet) && LaidOut(p) && p.playersPerTeam <= MAX_NUM_PLAYERS
      modifies this
      ensures Now() == Received(cfg, old(Now()), p, now)
    {
      if p.version == SUPPORTED_VERSION {
        var ok := Process(p, now);
        if ok {
          packet := p;
        }
      }
    }

    /** The loop that takes packets off the network. */
    method Listen(arrivals: seq<Arrival>, n: nat)
      requires Readable(cfg, packet, n) && forall i :: 0 <= i < |arrivals| ==> Arrives(arrivals[i], n)
      modifies this
      ensures Now() == Run(cfg, old(Now()), arrivals, n)
    {
      hide Received;
      var i := 0;
      assert arrivals[0..] == arrivals;
      while i < |arrivals|
        invariant 0 <= i <= |arrivals| && Readable(cfg, packet, n)
        invariant Run(cfg, Now(), arrivals[i..], n) == Run(cfg, old(Now()), arrivals, n)
      {
        var a := arrivals[i];
        assert Arrives(a, n) && arrivals[i..][0] == a && arrivals[i..][1..] == arrivals[i + 1..];
        ReceivedIsReadable(cfg, Now(), a.packet, a.now, n);
        Receive(a.packet, a.now);
        i := i + 1;
      }
    }
  }
}
