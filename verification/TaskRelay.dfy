/** The retry loop of RelayTask in controller/relay.go with the channel selection of service/channel_select.go, which
    may move to the next group and give the request a new retry budget. Upstreams, channel lookup and the request
    body are scripted: round t of the loop meets the answers script(t). */
module TaskRelay {
  import opened Basics

  datatype TaskError = TaskError(status: int, local: bool)

  datatype Submission = Accepted(quota: int) | Rejected(error: TaskError)

  datatype BodyFailure = BodyTooLarge | BodyUnreadable

  /** The answers of the outside world in one round. choose gives the channel for a group (OWN_GROUP or the index of
      an auto group) and a priority; billing tells whether a pre-charge exists after the submission. */
  datatype Round = Round(choose: (int, int) -> Option<int>, setupFails: bool, body: Option<BodyFailure>,
                         submission: Submission, billing: bool, affinitySkip: bool)

  const OWN_GROUP := -1

  /** groups counts the auto groups of the user. */
  datatype Settings = Settings(retryTimes: int, auto: bool, autoEnabled: bool, groups: nat, crossGroup: bool,
                               locked: Option<int>, contextChannel: int, specificChannel: bool)

  datatype State = State(retry: int, resetNextTry: bool, group: nat, hasMeta: bool, used: seq<int>, billing: bool,
                         error: Option<TaskError>, result: Option<int>)

  type Script = nat -> Round

  // ---------------------------------------------------------------------------------------------------
  // The retry decision
  // ---------------------------------------------------------------------------------------------------

  predicate AlwaysSkipRetry(status: int) {
    status == 504 || status == 524
  }

  function ShouldRetry(error: Option<TaskError>, affinitySkip: bool, retryTimes: int, specificChannel: bool): bool {
    if error.None? then false
    else if affinitySkip then false
    else if retryTimes <= 0 then false
    else if specificChannel then false
    else
      var status := error.value.status;
      if status == 429 then true
      else if status == 307 then true
      else if status / 100 == 5 then !AlwaysSkipRetry(status)
      else if status == 400 then false
      else if status == 408 then false
      else if error.value.local then false
      else if status / 100 == 2 then false
      else true
  }

  // ---------------------------------------------------------------------------------------------------
  // One round
  // ---------------------------------------------------------------------------------------------------

  /** The loop over the auto groups, from group i on; start is the group it began with. */
  function SelectAuto(s: State, i: nat, start: nat, cfg: Settings, choose: (int, int) -> Option<int>)
    : (State, Option<int>)
    decreases cfg.groups - i
  {
    if i >= cfg.groups then (s, None)
    else
      var priority := if i > start then 0 else s.retry;
      match choose(i, priority)
      case None => SelectAuto(s.(group := i + 1, retry := 0), i + 1, start, cfg, choose)
      case Some(channel) =>
        if cfg.crossGroup && priority >= cfg.retryTimes
        then (s.(group := i + 1, retry := 0, resetNextTry := true), Some(channel))
        else (s.(group := i), Some(channel))
  }

  function Select(s: State, cfg: Settings, round: Round): (State, Option<int>) {
    if !cfg.auto then (s, round.choose(OWN_GROUP, s.retry))
    else if !cfg.autoEnabled then (s, None)
    else SelectAuto(s, s.group, s.group, cfg, round.choose)
  }

  /** The channel of a round; none means the run ends with a local error of status 500. */
  function ObtainChannel(s: State, cfg: Settings, round: Round): (State, Option<int>) {
    if cfg.locked.Some? then (s, if s.retry > 0 && round.setupFails then None else cfg.locked)
    else if !s.hasMeta then (s, Some(cfg.contextChannel))
    else
      var (s', channel) := Select(s, cfg, round);
      (s', if round.setupFails then None else channel)
  }

  function Increased(s: State): State {
    if s.resetNextTry then s.(resetNextTry := false) else s.(retry := s.retry + 1)
  }

  function Failed(s: State, status: int): State {
    s.(error := Some(TaskError(status, true)))
  }

  /** The state after the submission of a round. */
  function Submitted(s: State, round: Round): State {
    var charged := s.(hasMeta := true, billing := s.billing || round.billing);
    match round.submission
    case Accepted(quota) => charged.(error := None, result := Some(quota))
    case Rejected(e) => charged.(error := Some(e), result := None)
  }

  /** The rest of a round once the channel is known: the new state and whether the loop goes on. */
  function Proceed(s: State, channel: Option<int>, cfg: Settings, round: Round): (State, bool) {
    if channel.None? then (Failed(s, 500), false)
    else
      var s1 := s.(used := s.used + [channel.value]);
      if round.body.Some? then (Failed(s1, if round.body.value.BodyTooLarge? then 413 else 400), false)
      else
        var s2 := Submitted(s1, round);
        if ShouldRetry(s2.error, round.affinitySkip, cfg.retryTimes - s2.retry, cfg.specificChannel)
        then (Increased(s2), true)
        else (s2, false)
  }

  /** One round. */
  function Attempt(s: State, cfg: Settings, round: Round): (State, bool) {
    var (s1, channel) := ObtainChannel(s, cfg, round);
    Proceed(s1, channel, cfg, round)
  }

  // ---------------------------------------------------------------------------------------------------
  // Budgets
  // ---------------------------------------------------------------------------------------------------

  /** What is left of the current budget, and a whole one for each of the moves. */
  function Budget(cfg: Settings, retry: int, moves: int): int {
    (cfg.retryTimes + 1 - retry) + moves * (cfg.retryTimes + 1)
  }

  predicate Fits(s: State, cfg: Settings) {
    0 <= s.retry <= cfg.retryTimes && !s.resetNextTry
  }

  predicate UsesGroups(cfg: Settings) {
    cfg.auto && cfg.autoEnabled && cfg.locked.None?
  }

  /** At most this many rounds can still obtain a channel. */
  function Tries(s: State, cfg: Settings): int {
    if !UsesGroups(cfg) then Budget(cfg, s.retry, 0)
    else if s.group < cfg.groups then Budget(cfg, s.retry, cfg.groups - 1 - s.group)
    else if s.hasMeta then 0
    else Budget(cfg, s.retry, 0)
  }

  /** With groups one more round may find that all groups are used up. */
  function Rounds(s: State, cfg: Settings): int {
    Tries(s, cfg) + if UsesGroups(cfg) then 1 else 0
  }

  lemma {:induction false} BudgetMoves(cfg: Settings, retry: int, moves: int, more: nat)
    requires cfg.retryTimes >= 0
    ensures Budget(cfg, retry, moves + 1) == Budget(cfg, retry, moves) + cfg.retryTimes + 1
    ensures Budget(cfg, retry, moves + more) >= Budget(cfg, retry, moves)
    ensures Budget(cfg, 0, moves) == (moves + 1) * (cfg.retryTimes + 1)
    ensures more > 0 ==> Budget(cfg, retry, moves + more) >= Budget(cfg, retry, moves) + cfg.retryTimes + 1
  {
    var r := cfg.retryTimes + 1;
    assert (moves + 1) * r == moves * r + r;
    assert (moves + more) * r == moves * r + more * r;
    assert more * r >= 0;
    assert more > 0 ==> more * r >= r by {
      if more > 0 {
        assert more * r == (more - 1) * r + r && (more - 1) * r >= 0;
      }
    }
  }

  /** What a selection does to the counters: it stays in the group; or it moves to a later group and the retries
      start from 0; or it takes the last try of a group and prepares the move to the next one. */
  predicate Selected(s: State, s': State, cfg: Settings, found: bool) {
    && s' == s.(retry := s'.retry, group := s'.group, resetNextTry := s'.resetNextTry)
    && s'.group >= s.group
    && (s' != s ==> UsesGroups(cfg) && s.hasMeta)
    && (found ==>
          || (s' == s && (s.group < cfg.groups || !UsesGroups(cfg) || !s.hasMeta))
          || (s'.retry == 0 && !s'.resetNextTry && s.group < s'.group < cfg.groups)
          || (s'.retry == 0 && s'.resetNextTry && cfg.crossGroup && s.group < s'.group <= cfg.groups &&
              (cfg.retryTimes == 0 || s.retry == cfg.retryTimes)))
  }

  lemma {:induction false} SelectAutoMoves(s: State, i: nat, start: nat, cfg: Settings,
    choose: (int, int) -> Option<int>)
    requires Fits(s, cfg) && start <= i && (i > start ==> s.retry == 0) && UsesGroups(cfg)
    ensures var (s', channel) := SelectAuto(s, i, start, cfg, choose);
      && s' == s.(retry := s'.retry, group := s'.group, resetNextTry := s'.resetNextTry)
      && (s'.group >= i || s' == s)
      && (channel.Some? ==>
            || (s' == s.(group := i) && i < cfg.groups)
            || (s'.retry == 0 && !s'.resetNextTry && i < s'.group < cfg.groups)
            || (s'.retry == 0 && s'.resetNextTry && cfg.crossGroup && i < s'.group <= cfg.groups &&
                (cfg.retryTimes == 0 || s.retry == cfg.retryTimes)))
    decreases cfg.groups - i
  {
    if i < cfg.groups {
      var priority := if i > start then 0 else s.retry;
      if choose(i, priority).None? {
        SelectAutoMoves(s.(group := i + 1, retry := 0), i + 1, start, cfg, choose);
      }
    }
  }

  /** The priority with which group j is asked. */
  function PriorityAt(s: State, j: nat, start: nat): int {
    if j > start then 0 else s.retry
  }

  /** The selection takes the first group from the current one on that has a channel, asked with the retry count in
      the current group and with 0 in later ones; there is none exactly if no group has one. A group is left for good
      when it had none or, with cross-group retry, when this was its last try. */
  lemma {:induction false} SelectAutoExact(s: State, i: nat, start: nat, cfg: Settings,
    choose: (int, int) -> Option<int>, j: nat)
    requires start <= i <= j < cfg.groups && (i > start ==> s.retry == 0)
    requires forall k :: i <= k < j ==> choose(k, PriorityAt(s, k, start)).None?
    ensures var (s', channel) := SelectAuto(s, i, start, cfg, choose);
      choose(j, PriorityAt(s, j, start)).Some? ==>
        && channel == choose(j, PriorityAt(s, j, start))
        && (if cfg.crossGroup && PriorityAt(s, j, start) >= cfg.retryTimes
            then s'.group == j + 1 && s'.retry == 0 && s'.resetNextTry
            else s'.group == j && s'.retry == PriorityAt(s, j, start) && s'.resetNextTry == s.resetNextTry)
    ensures j == cfg.groups - 1 && choose(j, PriorityAt(s, j, start)).None? ==>
      SelectAuto(s, i, start, cfg, choose).1 == None
    decreases cfg.groups - i
  {
    if i < j {
      assert choose(i, PriorityAt(s, i, start)).None?;
      var s1 := s.(group := i + 1, retry := 0);
      assert forall k :: i < k < cfg.groups ==> PriorityAt(s1, k, start) == PriorityAt(s, k, start);
      SelectAutoExact(s1, i + 1, start, cfg, choose, j);
    }
  }

  lemma {:induction false} ObtainMoves(s: State, cfg: Settings, round: Round)
    requires Fits(s, cfg)
    ensures var (s', channel) := ObtainChannel(s, cfg, round); Selected(s, s', cfg, channel.Some?)
  {
    if UsesGroups(cfg) && s.hasMeta {
      SelectAutoMoves(s, s.group, s.group, cfg, round.choose);
    }
  }

  lemma {:induction false} TriesLeft(s: State, cfg: Settings, round: Round)
    requires Fits(s, cfg)
    ensures Rounds(s, cfg) >= 1 && Tries(s, cfg) >= 0
    ensures ObtainChannel(s, cfg, round).1.Some? ==> Tries(s, cfg) >= 1
  {
    ObtainMoves(s, cfg, round);
    if s.group < cfg.groups {
      BudgetMoves(cfg, s.retry, 0, cfg.groups - 1 - s.group);
    }
  }

  /** A selection that finds a channel, followed by one more try: what that does to the budgets. */
  lemma {:induction false} SelectionShrinks(s: State, s1: State, cfg: Settings, limit: int)
    requires Fits(s, cfg) && Selected(s, s1, cfg, true) && s1.retry < cfg.retryTimes
    ensures var s' := Increased(s1.(hasMeta := true));
      Fits(s', cfg) && Tries(s', cfg) < Tries(s, cfg) &&
        Budget(cfg, s'.retry, limit - s'.group) < Budget(cfg, s.retry, limit - s.group)
  {
    var s' := Increased(s1.(hasMeta := true));
    if s1.group > s.group {
      BudgetMoves(cfg, s.retry, limit - s1.group, s1.group - s.group);
      BudgetMoves(cfg, s.retry, cfg.groups - 1 - s1.group, s1.group - s.group);
      assert s1.resetNextTry ==> s.retry == cfg.retryTimes;
      BudgetMoves(cfg, s.retry, 0, cfg.groups - 1 - s.group);
    }
  }

  /** A round after which the loop goes on keeps the counters in range and uses up budget. */
  lemma {:induction false} AttemptShrinks(s: State, cfg: Settings, round: Round, limit: int)
    requires Fits(s, cfg) && Attempt(s, cfg, round).1
    ensures var s' := Attempt(s, cfg, round).0;
      Fits(s', cfg) && Tries(s', cfg) < Tries(s, cfg) &&
        Budget(cfg, s'.retry, limit - s'.group) < Budget(cfg, s.retry, limit - s.group)
  {
    ObtainMoves(s, cfg, round);
    var s1 := ObtainChannel(s, cfg, round).0;
    SelectionShrinks(s, s1, cfg, limit);
    var s2 := Increased(s1.(hasMeta := true));
    var s' := Attempt(s, cfg, round).0;
    assert s'.(used := s2.used, billing := s2.billing, error := s2.error, result := s2.result) == s2;
  }

  // ---------------------------------------------------------------------------------------------------
  // Runs
  // ---------------------------------------------------------------------------------------------------

  /** The loop from round t on. */
  function Run(s: State, cfg: Settings, script: Script, t: nat): State
    requires Fits(s, cfg)
    decreases Rounds(s, cfg)
  {
    var (s', again) := Attempt(s, cfg, script(t));
    if !again then s'
    else
      AttemptShrinks(s, cfg, script(t), 0);
      TriesLeft(s', cfg, script(t + 1));
      Run(s', cfg, script, t + 1)
  }

  /** What happened in a round: the channel it got, if any; why the body could not be read; what the upstream answered,
      if it was asked, and whether a pre-charge existed then. */
  datatype Try = Try(channel: Option<int>, body: Option<BodyFailure>, submission: Option<Submission>, charged: bool)

  function TryWith(channel: Option<int>, round: Round): Try {
    if channel.None? then Try(None, None, None, false)
    else if round.body.Some? then Try(channel, round.body, None, false)
    else Try(channel, None, Some(round.submission), round.billing)
  }

  function TryOf(s: State, cfg: Settings, round: Round): Try {
    TryWith(ObtainChannel(s, cfg, round).1, round)
  }

  function Trace(s: State, cfg: Settings, script: Script, t: nat): seq<Try>
    requires Fits(s, cfg)
    decreases Rounds(s, cfg)
  {
    var (s', again) := Attempt(s, cfg, script(t));
    var first := TryOf(s, cfg, script(t));
    if !again then [first]
    else
      AttemptShrinks(s, cfg, script(t), 0);
      TriesLeft(s', cfg, script(t + 1));
      [first] + Trace(s', cfg, script, t + 1)
  }

  function Channels(trace: seq<Try>): seq<int> {
    if trace == [] then []
    else (if trace[0].channel.Some? then [trace[0].channel.value] else []) + Channels(trace[1..])
  }

  /** Which upstream errors are worth another try, by status. */
  predicate Retryable(e: TaskError) {
    if 500 <= e.status < 600 then e.status != 504 && e.status != 524
    else e.status in {307, 429} || !(e.local || e.status in {400, 408} || 200 <= e.status < 300)
  }

  lemma {:induction false} RetryDecision(error: Option<TaskError>, affinitySkip: bool, retryTimes: int,
    specificChannel: bool)
    ensures ShouldRetry(error, affinitySkip, retryTimes, specificChannel) <==>
      error.Some? && Retryable(error.value) && !affinitySkip && !specificChannel && retryTimes > 0
  {}

  /** All rounds but the last got a channel and were rejected for a reason worth retrying. */
  predicate EarlierFailed(trace: seq<Try>) {
    forall i :: 0 <= i < |trace| - 1 ==> RetryableTry(trace[i])
  }

  /** The error that a round leaves behind. */
  function ErrorOf(last: Try): Option<TaskError> {
    match last.submission
    case Some(Accepted(quota)) => None
    case Some(Rejected(e)) => Some(e)
    case None =>
      if last.channel.None? then Some(TaskError(500, true))
      else if last.body == Some(BodyTooLarge) then Some(TaskError(413, true))
      else Some(TaskError(400, true))
  }

  function QuotaOf(last: Try): Option<int> {
    if last.submission.Some? && last.submission.value.Accepted? then Some(last.submission.value.quota) else None
  }

  /** The error and the result of a run are those of its last round. */
  predicate EndsWith(final: State, last: Try) {
    final.error == ErrorOf(last) && final.result == QuotaOf(last)
  }

  predicate Charged(trace: seq<Try>) {
    exists i :: 0 <= i < |trace| && trace[i].charged
  }

  predicate RetryableTry(try: Try) {
    try.channel.Some? && try.submission.Some? && try.submission.value.Rejected? && Retryable(try.submission.value.error)
  }

  /** One round: it records its channel; the loop goes on only after an error worth retrying; otherwise the state has
      the error and the result of this round. */
  predicate RoundMeaning(s: State, s': State, again: bool, try: Try) {
    && s'.used == s.used + Channels([try])
    && (s'.billing <==> s.billing || try.charged)
    && (if again then RetryableTry(try) && s'.result == None else EndsWith(s', try))
  }

  lemma {:induction false} ProceedMeaning(s: State, channel: Option<int>, cfg: Settings, round: Round)
    requires s.result == None
    ensures var (s', again) := Proceed(s, channel, cfg, round); RoundMeaning(s, s', again, TryWith(channel, round))
  {
    if channel.Some? && round.body.None? && round.submission.Rejected? {
      RetryDecision(Some(round.submission.error), round.affinitySkip, cfg.retryTimes - s.retry, cfg.specificChannel);
    }
  }

  lemma {:induction false} AttemptMeaning(s: State, cfg: Settings, round: Round)
    requires Fits(s, cfg) && s.result == None
    ensures var (s', again) := Attempt(s, cfg, round); RoundMeaning(s, s', again, TryOf(s, cfg, round))
  {
    ObtainMoves(s, cfg, round);
    var (s1, channel) := ObtainChannel(s, cfg, round);
    ProceedMeaning(s1, channel, cfg, round);
  }

  /** A run is its first round, followed by the run of the rest. */
  lemma {:induction false} RunUnfolds(s: State, cfg: Settings, script: Script, t: nat)
    requires Fits(s, cfg)
    ensures var (s', again) := Attempt(s, cfg, script(t));
      if again then
        && Fits(s', cfg) && 0 <= Rounds(s', cfg) < Rounds(s, cfg)
        && Run(s, cfg, script, t) == Run(s', cfg, script, t + 1)
        && Trace(s, cfg, script, t) == [TryOf(s, cfg, script(t))] + Trace(s', cfg, script, t + 1)
      else Run(s, cfg, script, t) == s' && Trace(s, cfg, script, t) == [TryOf(s, cfg, script(t))]
  {
    var (s', again) := Attempt(s, cfg, script(t));
    if again {
      AttemptShrinks(s, cfg, script(t), 0);
      TriesLeft(s', cfg, script(t + 1));
    }
  }

  predicate MeansTrace(s: State, final: State, trace: seq<Try>) {
    && trace != [] && final.used == s.used + Channels(trace)
    && EarlierFailed(trace) && EndsWith(final, trace[|trace| - 1])
    && (final.billing <==> s.billing || Charged(trace))
  }

  lemma {:induction false} OneRound(s: State, final: State, try: Try)
    requires RoundMeaning(s, final, false, try)
    ensures MeansTrace(s, final, [try])
  {
    ChargedExtends(try, []);
    assert [try] + [] == [try];
  }

  lemma {:induction false} OneMoreRound(s: State, s': State, final: State, try: Try, rest: seq<Try>)
    requires RoundMeaning(s, s', true, try) && MeansTrace(s', final, rest)
    ensures MeansTrace(s, final, [try] + rest)
  {
    ChannelsOf(try, rest);
    EarlierExtends(try, rest);
    ChargedExtends(try, rest);
  }

  /** A whole run: the used channels are one per round that obtained one, in order; every retry had its reason; the
      last round decides; and a pre-charge exists exactly if one was made. */
  lemma {:induction false} RunMeaning(s: State, cfg: Settings, script: Script, t: nat)
    requires Fits(s, cfg) && s.result == None
    ensures MeansTrace(s, Run(s, cfg, script, t), Trace(s, cfg, script, t))
    decreases Rounds(s, cfg)
  {
    var (s', again) := Attempt(s, cfg, script(t));
    var first := TryOf(s, cfg, script(t));
    AttemptMeaning(s, cfg, script(t));
    RunUnfolds(s, cfg, script, t);
    if again {
      RunMeaning(s', cfg, script, t + 1);
      OneMoreRound(s, s', Run(s', cfg, script, t + 1), first, Trace(s', cfg, script, t + 1));
    } else {
      OneRound(s, s', first);
    }
  }

  lemma {:induction false} ChannelsOf(first: Try, rest: seq<Try>)
    ensures Channels([first] + rest) == Channels([first]) + Channels(rest)
  {
    assert ([first] + rest)[1..] == rest;
  }

  lemma {:induction false} ChargedExtends(first: Try, rest: seq<Try>)
    ensures Charged([first] + rest) <==> first.charged || Charged(rest)
  {
    var all := [first] + rest;
    assert all[0] == first && forall i :: 0 <= i < |rest| ==> all[i + 1] == rest[i];
  }

  lemma {:induction false} EarlierExtends(first: Try, rest: seq<Try>)
    requires RetryableTry(first)
    requires rest != [] && EarlierFailed(rest)
    ensures EarlierFailed([first] + rest)
  {
    var all := [first] + rest;
    assert forall i :: 1 <= i < |all| ==> all[i] == rest[i - 1];
  }

  lemma {:induction false} LastRoundBounded(s: State, cfg: Settings, round: Round)
    requires Fits(s, cfg) && !Attempt(s, cfg, round).1
    ensures var s', n := Attempt(s, cfg, round).0, |Channels([TryOf(s, cfg, round)])|;
      && s'.group >= s.group && (s'.group > s.group ==> UsesGroups(cfg))
      && n <= Budget(cfg, s.retry, s'.group - s.group) && n <= Tries(s, cfg) && 1 <= Rounds(s, cfg)
  {
    ObtainMoves(s, cfg, round);
    TriesLeft(s, cfg, round);
    var s' := Attempt(s, cfg, round).0;
    assert s'.group == ObtainChannel(s, cfg, round).0.group;
    BudgetMoves(cfg, s.retry, 0, s'.group - s.group);
  }

  lemma {:induction false} FirstRoundMoves(s: State, cfg: Settings, round: Round)
    requires Fits(s, cfg)
    ensures Attempt(s, cfg, round).0.group >= s.group
    ensures Attempt(s, cfg, round).0.group > s.group ==> UsesGroups(cfg)
  {
    ObtainMoves(s, cfg, round);
  }

  /** The number of attempts: what was left of the budget, and one budget of RetryTimes + 1 for every group the
      selection moved on. */
  lemma {:induction false} AttemptsBounded(s: State, cfg: Settings, script: Script, t: nat)
    requires Fits(s, cfg)
    ensures var final, trace := Run(s, cfg, script, t), Trace(s, cfg, script, t);
      && final.group >= s.group && (final.group > s.group ==> UsesGroups(cfg))
      && |Channels(trace)| <= Budget(cfg, s.retry, final.group - s.group)
      && |Channels(trace)| <= Tries(s, cfg)
      && |trace| <= Rounds(s, cfg)
    decreases Rounds(s, cfg)
  {
    var (s', again) := Attempt(s, cfg, script(t));
    RunUnfolds(s, cfg, script, t);
    if again {
      FirstRoundMoves(s, cfg, script(t));
      AttemptShrinks(s, cfg, script(t), Run(s', cfg, script, t + 1).group);
      AttemptsBounded(s', cfg, script, t + 1);
      ChannelsOf(TryOf(s, cfg, script(t)), Trace(s', cfg, script, t + 1));
    } else {
      LastRoundBounded(s, cfg, script(t));
    }
  }

  /** A request as it enters the loop. */
  predicate Fresh(s: State) {
    s.retry == 0 && !s.resetNextTry && s.used == [] && s.error == None && s.result == None
  }

  /** The groups a request can still be tried in. */
  function GroupsLeft(s: State, cfg: Settings): int {
    if UsesGroups(cfg) && s.group < cfg.groups then cfg.groups - s.group else 1
  }

  lemma {:induction false} TriesAtStart(s: State, cfg: Settings)
    requires s.retry == 0 && cfg.retryTimes >= 0
    ensures Tries(s, cfg) <= GroupsLeft(s, cfg) * (cfg.retryTimes + 1)
  {
    if s.group < cfg.groups {
      BudgetMoves(cfg, 0, cfg.groups - 1 - s.group, 0);
    }
  }

  /** RetryTimes + 1 attempts as long as no selection moves to another group; otherwise that many for each group
      from the first on. */
  lemma {:induction false} AttemptsPerGroup(s: State, cfg: Settings, script: Script)
    requires Fresh(s) && cfg.retryTimes >= 0
    ensures var final := Run(s, cfg, script, 0);
      && (final.group == s.group ==> |final.used| <= cfg.retryTimes + 1)
      && (final.group != s.group ==> UsesGroups(cfg))
      && |final.used| <= GroupsLeft(s, cfg) * (cfg.retryTimes + 1)
  {
    var used, group := Run(s, cfg, script, 0).used, Run(s, cfg, script, 0).group;
    assert |used| <= Tries(s, cfg) && |used| <= Budget(cfg, 0, group - s.group) &&
      (group != s.group ==> UsesGroups(cfg)) by {
      AttemptsBounded(s, cfg, script, 0);
      RunMeaning(s, cfg, script, 0);
    }
    TriesAtStart(s, cfg);
  }

  // ---------------------------------------------------------------------------------------------------
  // Billing
  // ---------------------------------------------------------------------------------------------------

  datatype Action = Settle(quota: int) | Respond(status: int) | Refund | Panic

  /** What follows the loop: settling, or an error response and then the deferred refund. With neither an error nor
      a result the handler dereferences nil. */
  function Finish(s: State): seq<Action> {
    match s.error
    case None => if s.result.Some? then [Settle(s.result.value)] else [Panic]
    case Some(e) => [Respond(e.status)] + if s.billing then [Refund] else []
  }

  function Relay(s: State, cfg: Settings, script: Script): seq<Action>
    requires Fresh(s)
  {
    Finish(if s.retry <= cfg.retryTimes then Run(s, cfg, script, 0) else s)
  }

  /** Every run that enters the loop ends with exactly one of: a single settlement, of the quota of the accepted last
      attempt; or the error of the last round and a single refund, if there is a pre-charge. With a negative
      RetryTimes the loop is not entered and the handler crashes. */
  lemma {:induction false} SettleOrRefundOnce(s: State, cfg: Settings, script: Script)
    requires Fresh(s)
    ensures cfg.retryTimes < 0 ==> Relay(s, cfg, script) == [Panic]
    ensures cfg.retryTimes >= 0 ==>
      var trace := Trace(s, cfg, script, 0);
      trace != [] &&
      var last := trace[|trace| - 1];
      Relay(s, cfg, script) ==
        if QuotaOf(last).Some? then [Settle(QuotaOf(last).value)]
        else if s.billing || Charged(trace) then [Respond(ErrorOf(last).value.status), Refund]
        else [Respond(ErrorOf(last).value.status)]
  {
    if cfg.retryTimes >= 0 {
      RunMeaning(s, cfg, script, 0);
    }
  }

  // ---------------------------------------------------------------------------------------------------
  // The handler
  // ---------------------------------------------------------------------------------------------------

  /** The request while it is relayed: the retry parameter, the context entries and the relay information. */
  class TaskRequest {
    var retry: int
    var resetNextTry: bool
    var group: nat
    var hasMeta: bool
    var used: seq<int>
    var billing: bool
    var error: Option<TaskError>
    var result: Option<int>

    function Value(): State
      reads this
    {
      State(retry, resetNextTry, group, hasMeta, used, billing, error, result)
    }

    constructor (group: nat, hasMeta: bool, billing: bool)
      ensures Fresh(Value()) && Value().group == group && Value().hasMeta == hasMeta && Value().billing == billing
    {
      retry, resetNextTry, this.group, this.hasMeta := 0, false, group, hasMeta;
      used, this.billing, error, result := [], billing, None, None;
    }

    method IncreaseRetry()
      modifies this
      ensures Value() == Increased(old(Value()))
    {
      if resetNextTry {
        resetNextTry := false;
        return;
      }
      retry := retry + 1;
    }

    /** CacheGetRandomSatisfiedChannel for the "auto" group. */
    method SelectFromAutoGroups(cfg: Settings, choose: (int, int) -> Option<int>) returns (channel: Option<int>)
      modifies this
      ensures (Value(), channel) == SelectAuto(old(Value()), old(group), old(group), cfg, choose)
    {
      channel := None;
      var start := group;
      var i := start;
      ghost var before := Value();
      while i < cfg.groups
        invariant i >= start && SelectAuto(Value(), i, start, cfg, choose) ==
          SelectAuto(before, start, start, cfg, choose)
        decreases cfg.groups - i
      {
        var priority := if i > start then 0 else retry;
        channel := choose(i, priority);
        if channel.None? {
          group := i + 1;
          retry := 0;
          i := i + 1;
          continue;
        }
        if cfg.crossGroup && priority >= cfg.retryTimes {
          group := i + 1;
          retry := 0;
          resetNextTry := true;
        } else {
          group := i;
        }
        return;
      }
      channel := None;
    }

    method GetChannel(cfg: Settings, round: Round) returns (channel: Option<int>)
      modifies this
      ensures (Value(), channel) == ObtainChannel(old(Value()), cfg, round)
    {
      if cfg.locked.Some? {
        return if retry > 0 && round.setupFails then None else cfg.locked;
      }
      if !hasMeta {
        return Some(cfg.contextChannel);
      }
      if cfg.auto {
        if !cfg.autoEnabled {
          return None;
        }
        channel := SelectFromAutoGroups(cfg, round.choose);
      } else {
        channel := round.choose(OWN_GROUP, retry);
      }
      if round.setupFails {
        channel := None;
      }
    }

    /** The body of the loop; tells whether it goes on. */
    method TryOnce(cfg: Settings, round: Round) returns (again: bool)
      modifies this
      ensures (Value(), again) == Attempt(old(Value()), cfg, round)
    {
      var channel := GetChannel(cfg, round);
      again := Submit(channel, cfg, round);
    }

    method RelayTaskSubmit(round: Round)
      modifies this
      ensures Value() == Submitted(old(Value()), round)
    {
      hasMeta := true;
      billing := billing || round.billing;
      match round.submission {
        case Accepted(quota) => result, error := Some(quota), None;
        case Rejected(e) => result, error := None, Some(e);
      }
    }

    /** The rest of the loop body once the channel is known. */
    method Submit(channel: Option<int>, cfg: Settings, round: Round) returns (again: bool)
      modifies this
      ensures (Value(), again) == Proceed(old(Value()), channel, cfg, round)
    {
      if channel.None? {
        error := Some(TaskError(500, true));
        return false;
      }
      used := used + [channel.value];
      if round.body.Some? {
        error := Some(TaskError(if round.body.value.BodyTooLarge? then 413 else 400, true));
        return false;
      }
      RelayTaskSubmit(round);
      if error.None? {
        return false;
      }
      if !ShouldRetry(error, round.affinitySkip, cfg.retryTimes - retry, cfg.specificChannel) {
        return false;
      }
      IncreaseRetry();
      return true;
    }

    method RelayTask(cfg: Settings, script: Script) returns (actions: seq<Action>)
      requires Fresh(Value())
      modifies this
      ensures actions == Relay(old(Value()), cfg, script)
      ensures cfg.retryTimes >= 0 ==> Value() == Run(old(Value()), cfg, script, 0)
    {
      ghost var start := Value();
      var t := 0;
      var going := retry <= cfg.retryTimes;
      while going
        invariant going ==>
          Fits(Value(), cfg) && cfg.retryTimes >= 0 && Run(Value(), cfg, script, t) == Run(start, cfg, script, 0)
        invariant !going && cfg.retryTimes >= 0 ==> Value() == Run(start, cfg, script, 0)
        invariant cfg.retryTimes < 0 ==> Value() == start
        decreases going, if going then Rounds(Value(), cfg) else 0
      {
        ghost var before := Value();
        assert Rounds(before, cfg) >= 1 by {
          TriesLeft(before, cfg, script(t));
        }
        going := TryOnce(cfg, script(t));
        if going {
          AttemptShrinks(before, cfg, script(t), 0);
          TriesLeft(Value(), cfg, script(t + 1));
          assert Run(before, cfg, script, t) == Run(Value(), cfg, script, t + 1);
          t := t + 1;
        }
      }
      if error.None? {
        if result.None? {
          return [Panic];
        }
        return [Settle(result.value)];
      }
      actions := [Respond(error.value.status)];
      if billing {
        actions := actions + [Refund];
      }
    }
  }

  // ---------------------------------------------------------------------------------------------------
  // When RetryTimes + 1 is the limit
  // ---------------------------------------------------------------------------------------------------

  const UNAVAILABLE := TaskError(503, false)

  /** Every submission is answered 503; the channels are those of choose. */
  function Failing(choose: (int, int) -> Option<int>): Round {
    Round(choose, false, None, Rejected(UNAVAILABLE), true, false)
  }

  /** All groups have a channel at every priority. */
  function AlwaysUnavailable(t: nat): Round {
    Failing((group: int, priority: int) => Some(7))
  }

  /** Retries are possible at all, and there are groups to move through. */
  predicate CanMove(cfg: Settings) {
    UsesGroups(cfg) && cfg.retryTimes >= 1 && !cfg.specificChannel
  }

  /** One round with such answers in a group that has a channel. */
  lemma {:induction false} FailingRound(s: State, cfg: Settings, choose: (int, int) -> Option<int>)
    requires Fits(s, cfg) && CanMove(cfg) && s.group < cfg.groups
    requires s.hasMeta ==> choose(s.group, s.retry).Some?
    ensures var (s', again) := Attempt(s, cfg, Failing(choose));
      && |s'.used| == |s.used| + 1 && s'.hasMeta && s'.result == None
      && (if s.hasMeta && cfg.crossGroup && s.retry == cfg.retryTimes
          then again && s'.retry == 0 && s'.group == s.group + 1
          else again == (s.retry < cfg.retryTimes) && s'.group == s.group && (again ==> s'.retry == s.retry + 1))
  {}

  /** With cross-group retry and every attempt answered 503, each group from the current one on is tried to the end. */
  lemma {:induction false} BusyRun(s: State, cfg: Settings, t: nat)
    requires Fits(s, cfg) && CanMove(cfg) && cfg.crossGroup && s.group <= cfg.groups
    requires (s.hasMeta || (s.retry == 0 && s.group < cfg.groups)) && s.result == None
    ensures var final := Run(s, cfg, AlwaysUnavailable, t);
      && final.error == Some(TaskError(500, true))
      && |final.used| == |s.used| + if s.group < cfg.groups then Budget(cfg, s.retry, cfg.groups - 1 - s.group) else 0
    decreases Rounds(s, cfg)
  {
    RunUnfolds(s, cfg, AlwaysUnavailable, t);
    if s.group < cfg.groups {
      FailingRound(s, cfg, AlwaysUnavailable(t).choose);
      var s' := Attempt(s, cfg, AlwaysUnavailable(t)).0;
      BusyRun(s', cfg, t + 1);
      if s'.group > s.group {
        BudgetMoves(cfg, 0, cfg.groups - 1 - s'.group, 0);
      }
    }
  }

  /** The bound on the attempts is reached: for all groups and every RetryTimes from 1 on there are RetryTimes + 1
      attempts in each group, and the answer is not the 503 of the upstreams but the local error that no channel was
      left. */
  lemma {:induction false} GroupsMultiplyAttempts(s: State, cfg: Settings)
    requires Fresh(s) && CanMove(cfg) && cfg.crossGroup && s.group < cfg.groups
    ensures var final := Run(s, cfg, AlwaysUnavailable, 0);
      |final.used| == (cfg.groups - s.group) * (cfg.retryTimes + 1) && final.error == Some(TaskError(500, true))
  {
    BusyRun(s, cfg, 0);
    BudgetMoves(cfg, 0, cfg.groups - 1 - s.group, 0);
  }

  /** For instance two groups and RetryTimes 1: four attempts. */
  lemma {:induction false} TwoGroupsFourAttempts()
    ensures var cfg := Settings(1, true, true, 2, true, None, 7, false);
      var s := State(0, false, 0, false, [], false, None, None);
      |Run(s, cfg, AlwaysUnavailable, 0).used| == 4
  {
    var cfg := Settings(1, true, true, 2, true, None, 7, false);
    GroupsMultiplyAttempts(State(0, false, 0, false, [], false, None, None), cfg);
  }

  /** The first group has channels at the first priority only. */
  function FirstGroupRunsOut(first: nat): Script {
    (t: nat) => Failing((group: int, priority: int) => if group == first && priority != 0 then None else Some(7))
  }

  lemma {:induction false} UsedGrows(s: State, cfg: Settings, script: Script, t: nat)
    requires Fits(s, cfg) && s.result == None
    ensures |Run(s, cfg, script, t).used| >= |s.used|
  {
    RunMeaning(s, cfg, script, t);
  }

  /** In a group that keeps having channels the whole budget is used. */
  lemma {:induction false} BudgetIsUsed(s: State, cfg: Settings, first: nat, t: nat)
    requires Fits(s, cfg) && CanMove(cfg) && s.hasMeta && s.result == None && first < s.group < cfg.groups
    ensures |Run(s, cfg, FirstGroupRunsOut(first), t).used| >= |s.used| + Budget(cfg, s.retry, 0)
    decreases cfg.retryTimes - s.retry
  {
    var script := FirstGroupRunsOut(first);
    RunUnfolds(s, cfg, script, t);
    FailingRound(s, cfg, script(t).choose);
    var (s', again) := Attempt(s, cfg, script(t));
    if s.retry < cfg.retryTimes {
      BudgetIsUsed(s', cfg, first, t + 1);
    } else if again {
      UsedGrows(s', cfg, script, t + 1);
    }
  }

  /** The second round finds the first group empty and moves to the next. */
  lemma {:induction false} MovesOn(s: State, cfg: Settings, first: nat)
    requires Fits(s, cfg) && CanMove(cfg) && s.hasMeta && s.group == first && s.retry == 1 && first + 1 < cfg.groups
    ensures var (s', again) := Attempt(s, cfg, FirstGroupRunsOut(first)(1));
      again && s'.group == first + 1 && s'.retry == 1 && s'.hasMeta && s'.result == None && |s'.used| == |s.used| + 1
  {
    var round := FirstGroupRunsOut(first)(1);
    SelectAutoExact(s, first, first, cfg, round.choose, first + 1);
    ObtainMoves(s, cfg, round);
    var s1 := ObtainChannel(s, cfg, round).0;
    assert ObtainChannel(s, cfg, round).1 == Some(7) && s1.retry == 0 && s1.group == first + 1 && !s1.resetNextTry;
    RetryDecision(Some(UNAVAILABLE), false, cfg.retryTimes - s1.retry, cfg.specificChannel);
  }

  lemma {:induction false} RunsOut(s: State, cfg: Settings)
    requires Fresh(s) && CanMove(cfg) && s.group + 1 < cfg.groups
    ensures |Run(s, cfg, FirstGroupRunsOut(s.group), 0).used| > cfg.retryTimes + 1
  {
    var first := s.group;
    var script := FirstGroupRunsOut(first);
    RunUnfolds(s, cfg, script, 0);
    FailingRound(s, cfg, script(0).choose);
    var s1 := Attempt(s, cfg, script(0)).0;
    RunUnfolds(s1, cfg, script, 1);
    MovesOn(s1, cfg, first);
    var s2 := Attempt(s1, cfg, script(1)).0;
    BudgetIsUsed(s2, cfg, first, 2);
  }

  /** RetryTimes + 1 is the limit for whatever the upstreams answer if and only if there is no further group to move
      to, or no retry at all: all of it is known before the request is relayed. Cross-group retry has no part in it. */
  lemma {:induction false} RetryTimesPlusOneExactly(s: State, cfg: Settings)
    requires Fresh(s) && cfg.retryTimes >= 0
    ensures (forall script: Script :: |Run(s, cfg, script, 0).used| <= cfg.retryTimes + 1) <==>
      (!UsesGroups(cfg) || s.group + 1 >= cfg.groups || cfg.retryTimes == 0 || cfg.specificChannel)
  {
    if !UsesGroups(cfg) || s.group + 1 >= cfg.groups || cfg.retryTimes == 0 || cfg.specificChannel {
      forall script: Script ensures |Run(s, cfg, script, 0).used| <= cfg.retryTimes + 1 {
        AttemptsPerGroup(s, cfg, script);
        if cfg.retryTimes == 0 || cfg.specificChannel {
          OnlyOneAttempt(s, cfg, script);
        }
      }
    } else {
      RunsOut(s, cfg);
    }
  }

  lemma {:induction false} OnlyOneAttempt(s: State, cfg: Settings, script: Script)
    requires Fresh(s) && cfg.retryTimes >= 0 && (cfg.retryTimes == 0 || cfg.specificChannel)
    ensures |Run(s, cfg, script, 0).used| <= 1
  {
    ObtainMoves(s, cfg, script(0));
    AttemptMeaning(s, cfg, script(0));
    RunUnfolds(s, cfg, script, 0);
    var s1 := ObtainChannel(s, cfg, script(0)).0;
    RetryDecision(Submitted(s1, script(0)).error, script(0).affinitySkip, cfg.retryTimes - s1.retry,
      cfg.specificChannel);
  }
}
