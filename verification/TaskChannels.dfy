/** Which channels a relayed task is sent to, round by round, from the settings and the answers of the outside world
    alone, and when there is a further round. */
module TaskChannels {
  import opened Basics
  import opened TaskRelay

  // ---------------------------------------------------------------------------------------------------
  // Rounds of a run
  // ---------------------------------------------------------------------------------------------------

  /** The request as round i of its run begins. */
  function StateAt(s: State, cfg: Settings, script: Script, t: nat, i: nat): (r: State)
    requires Fits(s, cfg) && i < |Trace(s, cfg, script, t)|
    ensures Fits(r, cfg)
    decreases i
  {
    RunUnfolds(s, cfg, script, t);
    if i == 0 then s else StateAt(Attempt(s, cfg, script(t)).0, cfg, script, t + 1, i - 1)
  }

  lemma {:induction false} StateShift(s: State, cfg: Settings, script: Script, t: nat, i: nat)
    requires Fits(s, cfg) && i + 1 < |Trace(s, cfg, script, t)|
    ensures var (s', again) := Attempt(s, cfg, script(t));
      && again && Fits(s', cfg) && i < |Trace(s', cfg, script, t + 1)|
      && StateAt(s, cfg, script, t, i + 1) == StateAt(s', cfg, script, t + 1, i)
  {
    RunUnfolds(s, cfg, script, t);
  }

  /** Round i is the attempt made in that state, ... */
  lemma {:induction false} RoundTry(s: State, cfg: Settings, script: Script, t: nat, i: nat)
    requires Fits(s, cfg) && i < |Trace(s, cfg, script, t)|
    ensures Trace(s, cfg, script, t)[i] == TryOf(StateAt(s, cfg, script, t, i), cfg, script(t + i))
    decreases i
  {
    RunUnfolds(s, cfg, script, t);
    if i > 0 {
      RoundTry(Attempt(s, cfg, script(t)).0, cfg, script, t + 1, i - 1);
    }
  }

  /** ... there is a further round exactly if the loop goes on, ... */
  lemma {:induction false} RoundAgain(s: State, cfg: Settings, script: Script, t: nat, i: nat)
    requires Fits(s, cfg) && i < |Trace(s, cfg, script, t)|
    ensures i + 1 < |Trace(s, cfg, script, t)| <==> Attempt(StateAt(s, cfg, script, t, i), cfg, script(t + i)).1
    decreases i
  {
    RunUnfolds(s, cfg, script, t);
    var (s', again) := Attempt(s, cfg, script(t));
    if i > 0 {
      RoundAgain(s', cfg, script, t + 1, i - 1);
    } else if again {
      RunUnfolds(s', cfg, script, t + 1);
    }
  }

  /** ... and it begins where this one ends. */
  lemma {:induction false} RoundNext(s: State, cfg: Settings, script: Script, t: nat, i: nat)
    requires Fits(s, cfg) && i + 1 < |Trace(s, cfg, script, t)|
    ensures StateAt(s, cfg, script, t, i + 1) == Attempt(StateAt(s, cfg, script, t, i), cfg, script(t + i)).0
    decreases i
  {
    StateShift(s, cfg, script, t, i);
    if i > 0 {
      var s' := Attempt(s, cfg, script(t)).0;
      StateShift(s, cfg, script, t, i - 1);
      assert |Trace(s', cfg, script, t + 1)| == |Trace(s, cfg, script, t)| - 1 by {
        RunUnfolds(s, cfg, script, t);
      }
      RoundNext(s', cfg, script, t + 1, i - 1);
      assert t + 1 + (i - 1) == t + i;
    }
  }

  lemma {:induction false} ChannelsAt(trace: seq<Try>, i: nat)
    requires EarlierFailed(trace) && i < |Channels(trace)|
    ensures i < |trace| && trace[i].channel == Some(Channels(trace)[i])
  {
    if |trace| == 1 {
      assert trace[1..] == [];
    } else if i > 0 {
      assert RetryableTry(trace[0]);
      assert forall k :: 0 <= k < |trace| - 2 ==> trace[1..][k] == trace[k + 1];
      ChannelsAt(trace[1..], i - 1);
    } else if |trace| > 1 {
      assert RetryableTry(trace[0]);
    }
  }

  /** The i-th channel that a run used is the one of round i. */
  lemma {:induction false} UsedChannel(s: State, cfg: Settings, script: Script, t: nat, i: nat)
    requires Fresh(s) && cfg.retryTimes >= 0 && i < |Run(s, cfg, script, t).used|
    ensures i < |Trace(s, cfg, script, t)|
    ensures Trace(s, cfg, script, t)[i].channel == Some(Run(s, cfg, script, t).used[i])
  {
    RunMeaning(s, cfg, script, t);
    ChannelsAt(Trace(s, cfg, script, t), i);
  }

  /** A further round needs an error worth retrying, no reason to stay on the channel, and budget left: used counts the
      retries that are used up once the channel is selected. */
  predicate GoesOn(try: Try, cfg: Settings, round: Round, used: int) {
    RetryableTry(try) && !round.affinitySkip && !cfg.specificChannel && used < cfg.retryTimes
  }

  lemma {:induction false} AgainMeaning(s: State, cfg: Settings, round: Round)
    ensures var s1 := ObtainChannel(s, cfg, round).0;
      Attempt(s, cfg, round).1 <==> GoesOn(TryOf(s, cfg, round), cfg, round, s1.retry)
  {
    var (s1, channel) := ObtainChannel(s, cfg, round);
    if channel.Some? && round.body.None? && round.submission.Rejected? {
      RetryDecision(Some(round.submission.error), round.affinitySkip, cfg.retryTimes - s1.retry, cfg.specificChannel);
    }
  }

  // ---------------------------------------------------------------------------------------------------
  // One group or a locked channel
  // ---------------------------------------------------------------------------------------------------

  /** Without auto groups every round counts as one retry. */
  lemma {:induction false} RetryIsRound(s: State, cfg: Settings, script: Script, t: nat, i: nat)
    requires Fits(s, cfg) && i < |Trace(s, cfg, script, t)| && !UsesGroups(cfg)
    ensures var s1 := StateAt(s, cfg, script, t, i);
      s1.retry == s.retry + i && (s1.hasMeta <==> s.hasMeta || i > 0)
    decreases i
  {
    RunUnfolds(s, cfg, script, t);
    if i > 0 {
      var s' := Attempt(s, cfg, script(t)).0;
      AttemptCounts(s, cfg, script(t));
      RetryIsRound(s', cfg, script, t + 1, i - 1);
    }
  }

  lemma {:induction false} AttemptCounts(s: State, cfg: Settings, round: Round)
    requires Fits(s, cfg) && !UsesGroups(cfg) && Attempt(s, cfg, round).1
    ensures var s' := Attempt(s, cfg, round).0; s'.retry == s.retry + 1 && s'.hasMeta
  {
    ObtainMoves(s, cfg, round);
  }

  /** There is a further round exactly if the error is worth it and retries are left, round i having used up i. */
  lemma {:induction false} FurtherRound(s: State, cfg: Settings, script: Script, t: nat, i: nat)
    requires Fresh(s) && cfg.retryTimes >= 0 && !UsesGroups(cfg) && i < |Trace(s, cfg, script, t)|
    ensures i + 1 < |Trace(s, cfg, script, t)| <==> GoesOn(Trace(s, cfg, script, t)[i], cfg, script(t + i), i)
  {
    RoundTry(s, cfg, script, t, i);
    RoundAgain(s, cfg, script, t, i);
    RetryIsRound(s, cfg, script, t, i);
    var s1 := StateAt(s, cfg, script, t, i);
    AgainMeaning(s1, cfg, script(t + i));
    ObtainMoves(s1, cfg, script(t + i));
  }

  /** A locked channel is the channel of every round; the run ends when it cannot be set up again. */
  lemma {:induction false} LockedChannel(s: State, cfg: Settings, script: Script, t: nat, i: nat)
    requires Fresh(s) && cfg.retryTimes >= 0 && cfg.locked.Some? && i < |Trace(s, cfg, script, t)|
    ensures Trace(s, cfg, script, t)[i].channel == if i > 0 && script(t + i).setupFails then None else cfg.locked
  {
    RoundTry(s, cfg, script, t, i);
    RetryIsRound(s, cfg, script, t, i);
  }

  /** In an ordinary group the first round takes the channel the request came with, if it has no channel data yet, and
      round i otherwise the one that the group offers at priority i. */
  lemma {:induction false} OwnGroupChannel(s: State, cfg: Settings, script: Script, t: nat, i: nat)
    requires Fresh(s) && cfg.retryTimes >= 0 && cfg.locked.None? && !cfg.auto && i < |Trace(s, cfg, script, t)|
    ensures Trace(s, cfg, script, t)[i].channel ==
      if i == 0 && !s.hasMeta then Some(cfg.contextChannel)
      else if script(t + i).setupFails then None
      else script(t + i).choose(OWN_GROUP, i)
  {
    RoundTry(s, cfg, script, t, i);
    RetryIsRound(s, cfg, script, t, i);
  }

  /** With auto groups switched off the channel the request came with is the only one. */
  lemma {:induction false} AutoDisabledChannel(s: State, cfg: Settings, script: Script, t: nat, i: nat)
    requires Fresh(s) && cfg.retryTimes >= 0 && cfg.locked.None? && cfg.auto && !cfg.autoEnabled
    requires i < |Trace(s, cfg, script, t)|
    ensures Trace(s, cfg, script, t)[i].channel == if i == 0 && !s.hasMeta then Some(cfg.contextChannel) else None
  {
    RoundTry(s, cfg, script, t, i);
    RetryIsRound(s, cfg, script, t, i);
  }

  // ---------------------------------------------------------------------------------------------------
  // Auto groups
  // ---------------------------------------------------------------------------------------------------

  /** What group j offers: it is asked at priority retry if it is the current group, and at 0 otherwise. */
  function Offer(choose: (int, int) -> Option<int>, group: nat, retry: int, j: nat): Option<int> {
    choose(j, if j == group then retry else 0)
  }

  /** Group j is the first from the current one on that offers a channel. */
  predicate FirstOffer(choose: (int, int) -> Option<int>, group: nat, retry: int, j: nat) {
    && group <= j && Offer(choose, group, retry, j).Some?
    && forall k: nat :: group <= k < j ==> Offer(choose, group, retry, k).None?
  }

  /** The retries used up after the channel has been taken from group j. */
  function Used(cfg: Settings, group: nat, retry: int, j: nat): int {
    var priority := if j == group then retry else 0;
    if cfg.crossGroup && priority >= cfg.retryTimes then 0 else priority
  }

  /** No group offers a channel. */
  ghost predicate NothingOffered(choose: (int, int) -> Option<int>, group: nat, retry: int, groups: nat) {
    forall j: nat :: j < groups ==> !FirstOffer(choose, group, retry, j)
  }

  lemma {:induction false} NoOffer(s: State, cfg: Settings, round: Round)
    requires UsesGroups(cfg) && s.hasMeta && NothingOffered(round.choose, s.group, s.retry, cfg.groups)
    ensures ObtainChannel(s, cfg, round).1.None?
  {
    if s.group < cfg.groups {
      NoneOffers(s, cfg, round.choose, cfg.groups);
      SameOffers(s, round.choose, cfg.groups);
      SelectAutoExact(s, s.group, s.group, cfg, round.choose, cfg.groups - 1);
    }
  }

  /** In the terms of SelectAutoExact. */
  lemma {:induction false} SameOffers(s: State, choose: (int, int) -> Option<int>, n: nat)
    requires forall k: nat :: s.group <= k < n ==> Offer(choose, s.group, s.retry, k).None?
    ensures forall k :: s.group <= k < n ==> choose(k, PriorityAt(s, k, s.group)).None?
  {
    forall k | s.group <= k < n ensures choose(k, PriorityAt(s, k, s.group)).None? {
      assert Offer(choose, s.group, s.retry, k).None?;
    }
  }

  lemma {:induction false} NoneOffers(s: State, cfg: Settings, choose: (int, int) -> Option<int>, n: nat)
    requires s.group <= n <= cfg.groups && NothingOffered(choose, s.group, s.retry, cfg.groups)
    ensures forall k: nat :: s.group <= k < n ==> Offer(choose, s.group, s.retry, k).None?
    decreases n
  {
    if n > s.group {
      NoneOffers(s, cfg, choose, n - 1);
      assert !FirstOffer(choose, s.group, s.retry, n - 1);
    }
  }

  /** What the selection of the channel leaves behind. */
  lemma {:induction false} OfferTaken(s: State, cfg: Settings, round: Round, j: nat)
    requires UsesGroups(cfg) && s.hasMeta && Fits(s, cfg) && j < cfg.groups
    requires FirstOffer(round.choose, s.group, s.retry, j)
    ensures var (s1, channel) := ObtainChannel(s, cfg, round);
      var priority := if j == s.group then s.retry else 0;
      && channel == (if round.setupFails then None else round.choose(j, priority))
      && s1.retry == Used(cfg, s.group, s.retry, j)
      && (if cfg.crossGroup && priority >= cfg.retryTimes
          then s1.group == j + 1 && s1.resetNextTry else s1.group == j && !s1.resetNextTry)
  {
    SameOffers(s, round.choose, j);
    SelectAutoExact(s, s.group, s.group, cfg, round.choose, j);
  }

  /** With auto groups a round without channel data takes the channel the request came with, ... */
  lemma {:induction false} FirstAutoChannel(s: State, cfg: Settings, script: Script, t: nat, i: nat)
    requires Fits(s, cfg) && i < |Trace(s, cfg, script, t)| && UsesGroups(cfg)
    requires !StateAt(s, cfg, script, t, i).hasMeta
    ensures var trace := Trace(s, cfg, script, t);
      && trace[i].channel == Some(cfg.contextChannel)
      && (i + 1 < |trace| <==> GoesOn(trace[i], cfg, script(t + i), StateAt(s, cfg, script, t, i).retry))
  {
    RoundTry(s, cfg, script, t, i);
    RoundAgain(s, cfg, script, t, i);
    AgainMeaning(StateAt(s, cfg, script, t, i), cfg, script(t + i));
  }

  /** ... and the retries count on. */
  lemma {:induction false} FirstAutoMove(s: State, cfg: Settings, script: Script, t: nat, i: nat)
    requires Fits(s, cfg) && i + 1 < |Trace(s, cfg, script, t)| && UsesGroups(cfg)
    requires !StateAt(s, cfg, script, t, i).hasMeta
    ensures var s1, s2 := StateAt(s, cfg, script, t, i), StateAt(s, cfg, script, t, i + 1);
      s2.hasMeta && s2.group == s1.group && s2.retry == s1.retry + 1
  {
    RoundAgain(s, cfg, script, t, i);
    RoundNext(s, cfg, script, t, i);
    WithoutMeta(StateAt(s, cfg, script, t, i), cfg, script(t + i));
  }

  lemma {:induction false} WithoutMeta(s: State, cfg: Settings, round: Round)
    requires UsesGroups(cfg) && Fits(s, cfg) && !s.hasMeta && Attempt(s, cfg, round).1
    ensures var s' := Attempt(s, cfg, round).0; s'.hasMeta && s'.group == s.group && s'.retry == s.retry + 1
  {}

  lemma {:induction false} AfterOffer(s: State, cfg: Settings, round: Round, j: nat)
    requires UsesGroups(cfg) && s.hasMeta && Fits(s, cfg) && j < cfg.groups
    requires FirstOffer(round.choose, s.group, s.retry, j) && Attempt(s, cfg, round).1
    ensures var s', priority := Attempt(s, cfg, round).0, if j == s.group then s.retry else 0;
      && s'.hasMeta
      && (if cfg.crossGroup && priority >= cfg.retryTimes then s'.group == j + 1 && s'.retry == 0
          else s'.group == j && s'.retry == priority + 1)
  {
    OfferTaken(s, cfg, round, j);
  }

  /** Every other round takes the channel of the first group from the current one on that offers one. */
  lemma {:induction false} AutoChannel(s: State, cfg: Settings, script: Script, t: nat, i: nat, j: nat)
    requires Fits(s, cfg) && i < |Trace(s, cfg, script, t)| && UsesGroups(cfg) && j < cfg.groups
    requires var s1 := StateAt(s, cfg, script, t, i);
      s1.hasMeta && FirstOffer(script(t + i).choose, s1.group, s1.retry, j)
    ensures var trace, s1 := Trace(s, cfg, script, t), StateAt(s, cfg, script, t, i);
      && trace[i].channel ==
         (if script(t + i).setupFails then None else script(t + i).choose(j, if j == s1.group then s1.retry else 0))
      && (i + 1 < |trace| <==> GoesOn(trace[i], cfg, script(t + i), Used(cfg, s1.group, s1.retry, j)))
  {
    RoundTry(s, cfg, script, t, i);
    RoundAgain(s, cfg, script, t, i);
    AgainMeaning(StateAt(s, cfg, script, t, i), cfg, script(t + i));
    OfferTaken(StateAt(s, cfg, script, t, i), cfg, script(t + i), j);
  }

  /** After the last try of a group, with cross-group retry, the next round begins in the next group at priority 0;
      otherwise in the same group at the next priority. */
  lemma {:induction false} AutoMove(s: State, cfg: Settings, script: Script, t: nat, i: nat, j: nat)
    requires Fits(s, cfg) && i + 1 < |Trace(s, cfg, script, t)| && UsesGroups(cfg) && j < cfg.groups
    requires var s1 := StateAt(s, cfg, script, t, i);
      s1.hasMeta && FirstOffer(script(t + i).choose, s1.group, s1.retry, j)
    ensures var s1, s2 := StateAt(s, cfg, script, t, i), StateAt(s, cfg, script, t, i + 1);
      var priority := if j == s1.group then s1.retry else 0;
      && s2.hasMeta
      && (if cfg.crossGroup && priority >= cfg.retryTimes then s2.group == j + 1 && s2.retry == 0
          else s2.group == j && s2.retry == priority + 1)
  {
    RoundAgain(s, cfg, script, t, i);
    RoundNext(s, cfg, script, t, i);
    AfterOffer(StateAt(s, cfg, script, t, i), cfg, script(t + i), j);
  }

  /** When no group offers a channel the round gets none and is the last. */
  lemma {:induction false} AutoRoundWithoutOffer(s: State, cfg: Settings, script: Script, t: nat, i: nat)
    requires Fits(s, cfg) && i < |Trace(s, cfg, script, t)| && UsesGroups(cfg)
    requires var s1 := StateAt(s, cfg, script, t, i);
      s1.hasMeta && NothingOffered(script(t + i).choose, s1.group, s1.retry, cfg.groups)
    ensures Trace(s, cfg, script, t)[i].channel == None && i + 1 == |Trace(s, cfg, script, t)|
  {
    RoundTry(s, cfg, script, t, i);
    RoundAgain(s, cfg, script, t, i);
    NoOffer(StateAt(s, cfg, script, t, i), cfg, script(t + i));
  }
}
