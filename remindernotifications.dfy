/** The Oasis plant panel (components/ReminderNotifications.tsx, component `OasisPlant`):
    its same-day care checks, status line, disabled buttons, growth stages and the
    kind-word form. */
module ReminderNotifications {
  import opened Wrappers
  import opened Strings
  import opened DateTime

  /** The highest growth level; the plant flowers there. */
  const MaxGrowth := 4

  /** `isWateredToday` / `isNurturedToday`: the care was given, on the day of `today`. */
  predicate CaredToday(last: Option<Timestamp>, today: Timestamp) {
    match last
    case None => false
    case Some(t) => SameDay(t, today)
  }

  /** A care counts for today exactly when it was recorded between today's midnight and
      the next. */
  lemma CaredTodayWithinDay(last: Option<Timestamp>, today: Timestamp)
    ensures CaredToday(last, today) <==>
      last.Some? && DayOf(today) * MinutesPerDay <= last.value < (DayOf(today) + 1) * MinutesPerDay
  {
    if last.Some? {
      DaySplit(last.value);
      DaySplit(today);
    }
  }

  const BloomStatus := "Thank you for helping me bloom!"
  const LovedStatus := "Feeling loved and cared for!"
  const WateredStatus := "Thanks for the water! Say something nice?"
  const NurturedStatus := "Your words are so kind! I'm a little thirsty."
  const IdleStatus := "A little care goes a long way."

  /** `getStatusMessage`: the first line that applies, in the order bloom, both cares,
      water only, kind word only, neither. */
  function StatusMessage(growth: int, wateredToday: bool, nurturedToday: bool): (s: string)
    ensures s == BloomStatus <==> growth == MaxGrowth
    ensures s == LovedStatus <==> growth != MaxGrowth && wateredToday && nurturedToday
    ensures s == WateredStatus <==> growth != MaxGrowth && wateredToday && !nurturedToday
    ensures s == NurturedStatus <==> growth != MaxGrowth && !wateredToday && nurturedToday
    ensures s == IdleStatus <==> growth != MaxGrowth && !wateredToday && !nurturedToday
  {
    if growth == MaxGrowth then BloomStatus
    else if wateredToday && nurturedToday then LovedStatus
    else if wateredToday then WateredStatus
    else if nurturedToday then NurturedStatus
    else IdleStatus
  }

  /** The drawings of `PlantSVG`, one per growth level. */
  datatype Stage = Sprout | SmallPlant | Growing | Budding | Flowering

  const Stages: seq<Stage> := [Sprout, SmallPlant, Growing, Budding, Flowering]

  /** `stages[growthLevel]`: a drawing for levels 0 .. 4 and nothing (`undefined`)
      outside them. */
  function StageOf(level: int): (r: Option<Stage>)
    ensures r.Some? <==> 0 <= level <= MaxGrowth
    ensures level == 0 ==> r == Some(Sprout)
    ensures level == MaxGrowth ==> r == Some(Flowering)
  {
    if 0 <= level < |Stages| then Some(Stages[level]) else None
  }

  /** What the panel shows for the plant state at `today` with `message` typed: the
      status line, the drawing, and which controls are disabled (the water button, the
      kind-word input and its send button). */
  datatype PanelView = PanelView(
    status: string,
    stage: Option<Stage>,
    waterDisabled: bool,
    inputDisabled: bool,
    sendDisabled: bool)

  function Panel(growth: int, lastWatered: Option<Timestamp>, lastNurtured: Option<Timestamp>,
                 today: Timestamp, message: string): (p: PanelView)
    ensures p.waterDisabled <==> CaredToday(lastWatered, today)
    ensures p.inputDisabled <==> CaredToday(lastNurtured, today)
    ensures p.sendDisabled <==> CaredToday(lastNurtured, today) || IsBlank(message)
    ensures p.status == StatusMessage(growth, CaredToday(lastWatered, today), CaredToday(lastNurtured, today))
    ensures p.stage == StageOf(growth)
  {
    var watered, nurtured := CaredToday(lastWatered, today), CaredToday(lastNurtured, today);
    PanelView(StatusMessage(growth, watered, nurtured), StageOf(growth),
              watered, nurtured, nurtured || IsBlank(message))
  }

  /** Once both cares are given today, both controls are locked and a plant short of
      flowering says it feels loved. */
  lemma BothCaredLocks(growth: int, lastWatered: Option<Timestamp>, lastNurtured: Option<Timestamp>,
                       today: Timestamp, message: string)
    requires CaredToday(lastWatered, today) && CaredToday(lastNurtured, today)
    ensures var p := Panel(growth, lastWatered, lastNurtured, today, message);
      p.waterDisabled && p.inputDisabled && p.sendDisabled
      && (p.status == LovedStatus <==> growth != MaxGrowth)
  {
  }

  /** The kind-word form: the text typed into it. */
  class OasisPlant {
    var message: string

    constructor()
      ensures message == ""
    {
      message := "";
    }

    /** The input's `onChange`. */
    method SetMessage(text: string)
      modifies this
      ensures message == text
    {
      message := text;
    }

    /** `handleNurtureSubmit`: a blank message does nothing; any other is handed on as
        typed (untrimmed) and the input is cleared. `sent` is what `onNurture` receives. */
    method NurtureSubmit() returns (sent: Option<string>)
      modifies this
      ensures IsBlank(old(message)) ==> sent == None && message == old(message)
      ensures !IsBlank(old(message)) ==> sent == Some(old(message)) && message == ""
    {
      if IsBlank(message) {
        return None;
      }
      sent := Some(message);
      message := "";
    }
  }
}
