/** The progress store shared by the three stages: a single record that each
    completed stage overwrites with its progress and stage number, unlocking
    that stage's secret message. */
module Love {

  import opened Wrappers

  datatype LoveState = LoveState(
    loveProgress: nat,
    xoxCompleted: bool,
    tileMatchCompleted: bool,
    qaCompleted: bool,
    currentStage: nat,
    unlockedSecrets: seq<string>,
    activeSecret: Option<string>)

  /** The secret message of each stage, in stage order. */
  const Secrets: seq<string> := [
    "I smiled for 20 minutes after our first chat. 😊",
    "That trip meant more to me than you know. 🌅",
    "I knew I loved you before you realized it. 💕"
  ]

  /** The state the provider starts with. */
  const Initial: LoveState := LoveState(0, false, false, false, 1, [], None)

  /** Nothing is done yet: no progress, no stage completed, the first stage
      current, no secret unlocked or shown. */
  lemma InitialState()
    ensures Initial.loveProgress == 0 && Initial.currentStage == 1
    ensures !Initial.xoxCompleted && !Initial.tileMatchCompleted && !Initial.qaCompleted
    ensures Initial.unlockedSecrets == [] && Initial.activeSecret == None
  {
  }

  /** `secret` appended to the unlocked secrets and shown. */
  function Unlock(s: LoveState, secret: string): (t: LoveState)
    ensures |t.unlockedSecrets| == |s.unlockedSecrets| + 1
    ensures t.unlockedSecrets[..|s.unlockedSecrets|] == s.unlockedSecrets
    ensures t.unlockedSecrets[|s.unlockedSecrets|] == secret && t.activeSecret == Some(secret)
    ensures t.loveProgress == s.loveProgress && t.currentStage == s.currentStage
    ensures t.xoxCompleted == s.xoxCompleted && t.tileMatchCompleted == s.tileMatchCompleted
    ensures t.qaCompleted == s.qaCompleted
  {
    s.(unlockedSecrets := s.unlockedSecrets + [secret], activeSecret := Some(secret))
  }

  /** `completeXOX`: the first stage is done. */
  function CompleteXOX(s: LoveState): (t: LoveState)
    ensures t.xoxCompleted && t.loveProgress == 33 && t.currentStage == 2
    ensures t.tileMatchCompleted == s.tileMatchCompleted && t.qaCompleted == s.qaCompleted
    ensures t.unlockedSecrets == s.unlockedSecrets + [Secrets[0]] && t.activeSecret == Some(Secrets[0])
  {
    Unlock(s, Secrets[0]).(xoxCompleted := true, loveProgress := 33, currentStage := 2)
  }

  /** `completeTileMatch`: the second stage is done. */
  function CompleteTileMatch(s: LoveState): (t: LoveState)
    ensures t.tileMatchCompleted && t.loveProgress == 66 && t.currentStage == 3
    ensures t.xoxCompleted == s.xoxCompleted && t.qaCompleted == s.qaCompleted
    ensures t.unlockedSecrets == s.unlockedSecrets + [Secrets[1]] && t.activeSecret == Some(Secrets[1])
  {
    Unlock(s, Secrets[1]).(tileMatchCompleted := true, loveProgress := 66, currentStage := 3)
  }

  /** `completeQA`: the third stage is done. */
  function CompleteQA(s: LoveState): (t: LoveState)
    ensures t.qaCompleted && t.loveProgress == 100 && t.currentStage == 4
    ensures t.xoxCompleted == s.xoxCompleted && t.tileMatchCompleted == s.tileMatchCompleted
    ensures t.unlockedSecrets == s.unlockedSecrets + [Secrets[2]] && t.activeSecret == Some(Secrets[2])
  {
    Unlock(s, Secrets[2]).(qaCompleted := true, loveProgress := 100, currentStage := 4)
  }

  /** `dismissSecret`: the shown secret is closed; nothing else changes. */
  function DismissSecret(s: LoveState): (t: LoveState)
    ensures t.activeSecret == None
    ensures t.loveProgress == s.loveProgress && t.currentStage == s.currentStage
    ensures t.xoxCompleted == s.xoxCompleted && t.tileMatchCompleted == s.tileMatchCompleted
    ensures t.qaCompleted == s.qaCompleted && t.unlockedSecrets == s.unlockedSecrets
  {
    s.(activeSecret := None)
  }

  /** Closing the secret a second time changes nothing. */
  lemma DismissIdempotent(s: LoveState)
    ensures DismissSecret(DismissSecret(s)) == DismissSecret(s)
  {
  }

  /** A call into the store. */
  datatype Action = XoxDone | TileMatchDone | QaDone | Dismiss

  function Step(s: LoveState, a: Action): LoveState {
    match a
    case XoxDone => CompleteXOX(s)
    case TileMatchDone => CompleteTileMatch(s)
    case QaDone => CompleteQA(s)
    case Dismiss => DismissSecret(s)
  }

  /** The state after a series of calls. */
  function Run(s: LoveState, actions: seq<Action>): LoveState
    decreases |actions|
  {
    if actions == [] then s else Run(Step(s, actions[0]), actions[1..])
  }

  /** The secret a call unlocks, if any. */
  function SecretOf(a: Action): seq<string> {
    match a
    case XoxDone => [Secrets[0]]
    case TileMatchDone => [Secrets[1]]
    case QaDone => [Secrets[2]]
    case Dismiss => []
  }

  /** The number of completion calls in a series. */
  function Completions(actions: seq<Action>): nat
    decreases |actions|
  {
    if actions == [] then 0 else (if actions[0] == Dismiss then 0 else 1) + Completions(actions[1..])
  }

  /** The secrets a series of calls unlocks, in call order: one per completion
      call, each one of the three stage secrets. */
  function SecretsOf(actions: seq<Action>): (r: seq<string>)
    ensures |r| == Completions(actions)
    ensures forall i | 0 <= i < |r| :: r[i] in Secrets
    decreases |actions|
  {
    if actions == [] then [] else SecretOf(actions[0]) + SecretsOf(actions[1..])
  }

  /** One call appends the secret it unlocks, if any. */
  lemma StepAppendsSecret(s: LoveState, a: Action)
    ensures Step(s, a).unlockedSecrets == s.unlockedSecrets + SecretOf(a)
  {
  }

  /** Secrets are only ever appended: the list after a series of calls is the
      list before it followed by one secret per completed stage. */
  lemma {:induction false} RunAppendsSecrets(s: LoveState, actions: seq<Action>)
    ensures Run(s, actions).unlockedSecrets == s.unlockedSecrets + SecretsOf(actions)
    decreases |actions|
  {
    if actions != [] {
      var next := Step(s, actions[0]);
      StepAppendsSecret(s, actions[0]);
      RunAppendsSecrets(next, actions[1..]);
      assert SecretsOf(actions) == SecretOf(actions[0]) + SecretsOf(actions[1..]);
      assert Run(s, actions) == Run(next, actions[1..]);
    }
  }

  /** The progress a completion call assigns. */
  function ProgressOf(a: Action): nat
    requires a != Dismiss
  {
    if a == XoxDone then 33 else if a == TileMatchDone then 66 else 100
  }

  /** The stage a completion call moves to. */
  function StageOf(a: Action): nat
    requires a != Dismiss
  {
    if a == XoxDone then 2 else if a == TileMatchDone then 3 else 4
  }

  /** The last completion call of a series, if any. */
  function LastCompletion(actions: seq<Action>): (r: Option<Action>)
    ensures r.Some? ==> r.value != Dismiss && r.value in actions
    decreases |actions|
  {
    if actions == [] then None
    else if actions[|actions| - 1] != Dismiss then Some(actions[|actions| - 1])
    else LastCompletion(actions[..|actions| - 1])
  }

  lemma RunSnoc(s: LoveState, actions: seq<Action>, a: Action)
    ensures Run(s, actions + [a]) == Step(Run(s, actions), a)
    decreases |actions|
  {
    if actions != [] {
      assert (actions + [a])[1..] == actions[1..] + [a];
      RunSnoc(Step(s, actions[0]), actions[1..], a);
    }
  }

  /** Progress is assigned, not accumulated: after a series of calls progress
      and stage are the values of the last completion call, whatever came
      before; with no completion call they are unchanged. */
  lemma {:induction false} ProgressIsLastAssigned(s: LoveState, actions: seq<Action>)
    ensures var t := Run(s, actions);
      match LastCompletion(actions)
      case Some(a) => t.loveProgress == ProgressOf(a) && t.currentStage == StageOf(a)
      case None => t.loveProgress == s.loveProgress && t.currentStage == s.currentStage
    decreases |actions|
  {
    if actions != [] {
      var init, last := actions[..|actions| - 1], actions[|actions| - 1];
      assert actions == init + [last];
      RunSnoc(s, init, last);
      ProgressIsLastAssigned(s, init);
    }
  }

  /** Completion flags are never cleared. */
  lemma {:induction false} FlagsStay(s: LoveState, actions: seq<Action>)
    ensures var t := Run(s, actions);
      (s.xoxCompleted ==> t.xoxCompleted) && (s.tileMatchCompleted ==> t.tileMatchCompleted) &&
      (s.qaCompleted ==> t.qaCompleted)
    decreases |actions|
  {
    if actions != [] {
      FlagsStay(Step(s, actions[0]), actions[1..]);
    }
  }

  /** The shown secret, if any, is the one unlocked last. */
  predicate ActiveIsLatest(s: LoveState) {
    s.activeSecret.Some? ==> s.unlockedSecrets != [] && s.activeSecret.value == s.unlockedSecrets[|s.unlockedSecrets| - 1]
  }

  lemma {:induction false} RunKeepsActiveLatest(s: LoveState, actions: seq<Action>)
    requires ActiveIsLatest(s)
    ensures ActiveIsLatest(Run(s, actions))
    decreases |actions|
  {
    if actions != [] {
      RunKeepsActiveLatest(Step(s, actions[0]), actions[1..]);
    }
  }

  /** Playing the stages in order from the start: progress runs 0, 33, 66,
      100, stages 1 to 4, and all three secrets end up unlocked in order. */
  lemma StagesInOrder()
    ensures var s1 := CompleteXOX(Initial);
      var s2 := CompleteTileMatch(s1);
      var s3 := CompleteQA(s2);
      [Initial.loveProgress, s1.loveProgress, s2.loveProgress, s3.loveProgress] == [0, 33, 66, 100] &&
      [Initial.currentStage, s1.currentStage, s2.currentStage, s3.currentStage] == [1, 2, 3, 4] &&
      s3.unlockedSecrets == Secrets && s3.xoxCompleted && s3.tileMatchCompleted && s3.qaCompleted
  {
  }
}
