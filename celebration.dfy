/** The celebration effect: which burst of confetti to show after a todo or
    the whole list is done, and which emoji each confetti piece gets. */
module Celebrations {
  import opened Wrappers

  datatype CelebrationType = TaskCompleted | Milestone | Streak | AllCompleted

  /** The ten confetti emojis, in order. */
  const Emojis: seq<string> := [
    "\U{1F389}", "\U{2728}", "\U{1F31F}", "\U{1F38A}", "\U{1F973}",
    "\U{1F44F}", "\U{1F4AF}", "\U{1F525}", "\U{1F680}", "\U{1F308}"]

  const DefaultDuration := 2500

  /** Pieces of confetti for a celebration type. */
  function ConfettiCountFor(kind: CelebrationType): (n: nat)
    ensures kind == Milestone ==> n == 50
    ensures kind == Streak ==> n == 75
    ensures kind == AllCompleted ==> n == 100
    ensures kind == TaskCompleted ==> n == 30
  {
    match kind
    case Milestone => 50
    case Streak => 75
    case AllCompleted => 100
    case _ => 30
  }

  /** JavaScript's `%`: the remainder takes the sign of the dividend. */
  function JsRemainder(a: int, b: int): (r: int)
    requires b > 0
    ensures a >= 0 ==> r == a % b
    ensures -b < r < b
    ensures a < 0 ==> r <= 0
  {
    if a >= 0 then a % b else -((-a) % b)
  }

  /** `emojis[index % emojis.length]`: an emoji for every index from 0 up,
      cycling through the list; a negative index not divisible by ten
      reads past the front of the array and yields `undefined`. */
  function ConfettiEmoji(index: int): (e: Option<string>)
    ensures index >= 0 ==> e == Some(Emojis[index % 10])
    ensures index < 0 && index % 10 != 0 ==> e.None?
  {
    var r := JsRemainder(index, |Emojis|);
    if 0 <= r < |Emojis| then Some(Emojis[r]) else None
  }

  /** The emoji of a piece repeats every ten pieces. */
  lemma ConfettiEmojiPeriodic(index: nat)
    ensures ConfettiEmoji(index + 10) == ConfettiEmoji(index)
  {
  }

  class Celebration {
    var showCelebration: bool
    var celebrationType: CelebrationType
    var confettiCount: int

    constructor ()
      ensures !showCelebration && celebrationType == TaskCompleted && confettiCount == 20
    {
      showCelebration := false;
      celebrationType := TaskCompleted;
      confettiCount := 20;
    }

    /** `triggerCelebration(type, duration)`: records the type (a single
        completed task by default), sizes the burst for it and shows it.
        Returns the delay after which the effect hides itself (the timer
        itself is not modelled). */
    method TriggerCelebration(kind: Option<CelebrationType>, duration: Option<int>) returns (hideAfter: int)
      modifies this
      ensures celebrationType == kind.GetOr(TaskCompleted)
      ensures confettiCount == ConfettiCountFor(celebrationType)
      ensures showCelebration
      ensures hideAfter == duration.GetOr(DefaultDuration)
    {
      celebrationType := kind.GetOr(TaskCompleted);
      match celebrationType {
        case Milestone => confettiCount := 50;
        case Streak => confettiCount := 75;
        case AllCompleted => confettiCount := 100;
        case _ => confettiCount := 30;
      }
      showCelebration := true;
      hideAfter := duration.GetOr(DefaultDuration);
    }
  }
}
