/** The "Spawn picture" button: the mail tube takes the first stash entry,
    turns it into a picture of the scene and delivers it. The coroutine is
    flattened into three steps: the press, the stop of the delivery after
    seven seconds, and the end of the animation two seconds later. */
module Interaction {
  import opened Wrappers
  import opened Json
  import opened Pictures

  /** Where the mail tube coroutine stands: not started (or dead), delivering
      the picture, or done delivering and waiting to put the slab back. */
  datatype Phase = Idle | Delivering | Settled

  /** The static fields the button and the coroutine read and write.
      `None` stands for a null reference. */
  datatype SpawnState = SpawnState(
    animationRunning: bool,
    mailTubePicture: Option<PictureData>,
    stash: Option<seq<string>>,
    pictures: Option<seq<PictureData>>,
    phase: Phase)

  /** The flag tells whether the coroutine is between its press and its end,
      and a running coroutine always has its picture. */
  predicate Consistent(s: SpawnState)
  {
    && (s.animationRunning <==> s.phase != Idle)
    && (s.phase != Idle ==> s.mailTubePicture.Some?)
  }

  /** The picture the mail tube delivers for a stash entry: its JSON record
      holds only the path; frame and colour are the defaults, the picture is
      turned round, and its size is left for the block creation to derive. */
  function SpawnedPicture(path: string, settings: Settings): PictureData
  {
    var fp := FramedPicture(path, Zero, Vector3(0.0, 180.0, 0.0), 0.0, 0.0,
                            settings.defaultPadding, settings.defaultThickness, settings.defaultColor);
    PictureData(fp, true, Some(JObj(map["path" := JStr(path)])))
  }

  /** `SpawnPicture` followed by the part of `RunMailTubeAnimation` before
      its first wait. A null stash passes the guard, and the coroutine then
      fails on its first element before changing anything; a null pictures
      list fails after the stash was popped and the picture recorded, so the
      animation never starts. */
  function PressAfter(s: SpawnState, settings: Settings): SpawnState
  {
    if s.animationRunning || s.mailTubePicture.Some? then s
    else if s.stash.Some? && |s.stash.value| == 0 then s
    else if s.stash.None? then s
    else
      var picture := SpawnedPicture(s.stash.value[0], settings);
      var popped := s.(stash := Some(s.stash.value[1..]), mailTubePicture := Some(picture));
      if s.pictures.None? then popped
      else popped.(pictures := Some(s.pictures.value + [picture]), animationRunning := true, phase := Delivering)
  }

  /** After seven seconds the picture is stopped where the tube put it. */
  function SettleAfter(s: SpawnState): SpawnState
  {
    if s.phase == Delivering then s.(phase := Settled) else s
  }

  /** Two seconds later the slab is back and the animation is over. */
  function FinishAfter(s: SpawnState): SpawnState
  {
    if s.phase == Settled then s.(phase := Idle, animationRunning := false) else s
  }

  datatype Event = Press | SevenSeconds | NineSeconds

  function StepAfter(s: SpawnState, e: Event, settings: Settings): SpawnState
  {
    match e
    case Press => PressAfter(s, settings)
    case SevenSeconds => SettleAfter(s)
    case NineSeconds => FinishAfter(s)
  }

  /** The state after a run of events, in order. */
  function RunAfter(s: SpawnState, events: seq<Event>, settings: Settings): SpawnState
    decreases |events|
  {
    if |events| == 0 then s
    else RunAfter(StepAfter(s, events[0], settings), events[1..], settings)
  }

  // ------------------------------------------------------------ properties

  /** A press while the tube is busy, or while a delivered picture is still
      recorded, changes nothing; nor does a press with an empty stash. */
  lemma PressIgnoredWhenBusyOrEmpty(s: SpawnState, settings: Settings)
    ensures s.animationRunning || s.mailTubePicture.Some? ==> PressAfter(s, settings) == s
    ensures s.stash.Some? && |s.stash.value| == 0 ==> PressAfter(s, settings) == s
  {
  }

  /** A press that gets through moves the first stash entry into a new
      picture: the rest of the stash stays in order, the picture's record
      holds just that path with the default frame, and the picture is
      appended to the pictures list while the animation starts. */
  lemma PressSpawnsFirstStashEntry(s: SpawnState, settings: Settings)
    requires !s.animationRunning && s.mailTubePicture.None?
    requires s.stash.Some? && |s.stash.value| > 0
    ensures var t := PressAfter(s, settings);
      && t.mailTubePicture.Some?
      && var p := t.mailTubePicture.value;
      && t.stash.Some? && [p.framedPicture.path] + t.stash.value == s.stash.value
      && p.jsonConfig == Some(JObj(map["path" := JStr(s.stash.value[0])]))
      && p.framedPicture.padding == settings.defaultPadding
      && p.framedPicture.thickness == settings.defaultThickness
      && p.framedPicture.color == settings.defaultColor
      && p.framedPicture.rotation == Vector3(0.0, 180.0, 0.0)
      && (s.pictures.Some? ==> t.pictures == Some(s.pictures.value + [p]) && t.animationRunning && t.phase == Delivering)
      && (s.pictures.None? ==> t.pictures.None? && !t.animationRunning && t.phase == s.phase)
  {
    var t := PressAfter(s, settings);
    assert [s.stash.value[0]] + s.stash.value[1..] == s.stash.value;
  }

  /** Every step keeps the flag and the phase in agreement. */
  lemma StepKeepsConsistent(s: SpawnState, e: Event, settings: Settings)
    requires Consistent(s)
    ensures Consistent(StepAfter(s, e, settings))
  {
  }

  /** `animationRunning` is set by the press and cleared only by the end of
      the animation, nine seconds in. */
  lemma AnimationRunsFromPressToFinish(s: SpawnState, settings: Settings)
    requires Consistent(s)
    ensures SettleAfter(s).animationRunning == s.animationRunning
    ensures s.phase == Settled ==> !FinishAfter(s).animationRunning
    ensures s.phase != Settled ==> FinishAfter(s).animationRunning == s.animationRunning
    ensures !s.animationRunning && PressAfter(s, settings).animationRunning ==> PressAfter(s, settings).phase == Delivering
  {
  }

  /** Nothing clears the delivered picture, so once a picture was delivered
      no later event moves the stash or the pictures list again. */
  lemma {:induction false} OneSpawnPerInitialisation(s: SpawnState, events: seq<Event>, settings: Settings)
    requires s.mailTubePicture.Some?
    ensures RunAfter(s, events, settings).stash == s.stash
    ensures RunAfter(s, events, settings).pictures == s.pictures
    ensures RunAfter(s, events, settings).mailTubePicture == s.mailTubePicture
    decreases |events|
  {
    if |events| > 0 {
      OneSpawnPerInitialisation(StepAfter(s, events[0], settings), events[1..], settings);
    }
  }

  /** A run from a consistent state stays consistent. */
  lemma {:induction false} RunKeepsConsistent(s: SpawnState, events: seq<Event>, settings: Settings)
    requires Consistent(s)
    ensures Consistent(RunAfter(s, events, settings))
    decreases |events|
  {
    if |events| > 0 {
      StepKeepsConsistent(s, events[0], settings);
      RunKeepsConsistent(StepAfter(s, events[0], settings), events[1..], settings);
    }
  }

  // ------------------------------------------------------------ the static state

  class PictureSpawner {
    var animationRunning: bool
    var mailTubePicture: Option<PictureData>
    var stash: Option<seq<string>>
    var pictures: Option<seq<PictureData>>
    var phase: Phase

    function State(): SpawnState
      reads this
    {
      SpawnState(animationRunning, mailTubePicture, stash, pictures, phase)
    }

    /** `initializeGymObjects`: the stash of the scene, no delivery going on. */
    constructor (sceneStash: Option<seq<string>>, picturesList: Option<seq<PictureData>>)
      ensures State() == SpawnState(false, None, sceneStash, picturesList, Idle)
      ensures Consistent(State())
    {
      animationRunning := false;
      mailTubePicture := None;
      stash := sceneStash;
      pictures := picturesList;
      phase := Idle;
    }

    /** `initializeGymObjects` on a later load of the scene: the flags are
        reset and the stash is taken again from the document. */
    method InitGymObjects(sceneStash: Option<seq<string>>)
      modifies this
      ensures State() == old(State()).(animationRunning := false, mailTubePicture := None, stash := sceneStash, phase := Idle)
      ensures Consistent(State())
    {
      animationRunning := false;
      stash := sceneStash;
      mailTubePicture := None;
      phase := Idle;
    }

    /** The button press. */
    method SpawnPicture(settings: Settings)
      modifies this
      ensures State() == PressAfter(old(State()), settings)
    {
      if animationRunning || mailTubePicture.Some? {
        return;
      }
      if stash.Some? && |stash.value| == 0 {
        return;
      }
      RunMailTubeAnimation(settings);
    }

    /** The coroutine up to its first wait. */
    method RunMailTubeAnimation(settings: Settings)
      requires !animationRunning && mailTubePicture.None?
      requires !(stash.Some? && |stash.value| == 0)
      modifies this
      ensures State() == PressAfter(old(State()), settings)
    {
      if stash.None? {
        return;
      }
      var path := stash.value[0];
      stash := Some(stash.value[1..]);
      var picture := SpawnedPicture(path, settings);
      mailTubePicture := Some(picture);
      if pictures.None? {
        return;
      }
      pictures := Some(pictures.value + [picture]);
      animationRunning := true;
      phase := Delivering;
    }

    /** The coroutine after its seven-second wait. */
    method StopDelivery()
      modifies this
      ensures State() == SettleAfter(old(State()))
    {
      if phase == Delivering {
        phase := Settled;
      }
    }

    /** The coroutine after its last wait. */
    method EndAnimation()
      modifies this
      ensures State() == FinishAfter(old(State()))
    {
      if phase == Settled {
        animationRunning := false;
        phase := Idle;
      }
    }
  }
}
