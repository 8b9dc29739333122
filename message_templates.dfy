/** Texts of the driver SMS notifications (backend/message_templates.py).
    `{:.1f}` formatting is the parameter fixed1. */
module MessageTemplates {
  import opened Common

  const OverspeedPrefix := "ALERT: Overspeed detected."
  const OverspeedHead := "ALERT: Overspeed detected. Current speed: "
  const OverspeedMiddle := " km/h (limit: "
  const OverspeedTail := " km/h). Please reduce speed immediately for safety."

  const DoorPrefix := "ALERT: Door is open while bus is moving"
  const DoorHead := "ALERT: Door is open while bus is moving (speed: "
  const DoorTail := " km/h). Please close the door immediately for passenger safety."

  const NoteSeparator := "\n\nNote: "

  /** `get_overspeed_template`: the formatted speed, then the formatted limit,
      inside fixed text. */
  function OverspeedTemplate(speed: real, threshold: real, fixed1: real -> string): string {
    OverspeedHead + fixed1(speed) + OverspeedMiddle + fixed1(threshold) + OverspeedTail
  }

  /** The overspeed text starts with the overspeed prefix and carries the
      formatted speed and the formatted limit at fixed places. */
  lemma OverspeedTemplateShape(speed: real, threshold: real, fixed1: real -> string)
    ensures var r := OverspeedTemplate(speed, threshold, fixed1);
      && |r| == |OverspeedHead| + |fixed1(speed)| + |OverspeedMiddle| + |fixed1(threshold)| + |OverspeedTail|
      && OverspeedPrefix <= r
      && r[|OverspeedHead|..|OverspeedHead| + |fixed1(speed)|] == fixed1(speed)
      && var at := |OverspeedHead| + |fixed1(speed)| + |OverspeedMiddle|;
         r[at..at + |fixed1(threshold)|] == fixed1(threshold)
  {
    var r := OverspeedTemplate(speed, threshold, fixed1);
    assert r[..|OverspeedPrefix|] == OverspeedHead[..|OverspeedPrefix|];
  }

  /** `get_door_open_template`: only the formatted speed varies. */
  function DoorTemplate(speed: real, fixed1: real -> string): string {
    DoorHead + fixed1(speed) + DoorTail
  }

  /** The door text starts with the door prefix and carries the formatted
      speed before its fixed tail. */
  lemma DoorTemplateShape(speed: real, fixed1: real -> string)
    ensures var r := DoorTemplate(speed, fixed1);
      && |r| == |DoorHead| + |fixed1(speed)| + |DoorTail|
      && DoorPrefix <= r
      && r[|DoorHead|..|DoorHead| + |fixed1(speed)|] == fixed1(speed)
      && r[|DoorHead| + |fixed1(speed)|..] == DoorTail
  {
    var r := DoorTemplate(speed, fixed1);
    assert r[..|DoorPrefix|] == DoorHead[..|DoorPrefix|];
  }

  /** `get_custom_template`: a missing or empty note leaves the base text;
      otherwise the note follows the base after a blank line and "Note: ". */
  function CustomTemplate(base: string, note: Option<string>): string {
    match note
    case Some(n) => if n != [] then base + NoteSeparator + n else base
    case None => base
  }

  /** The note, when there is one, is appended after the separator and the
      base text is kept as the prefix. */
  lemma CustomTemplateShape(base: string, note: Option<string>)
    ensures var r := CustomTemplate(base, note);
      && (note.None? || note.value == [] ==> r == base)
      && (note.Some? && note.value != [] ==>
            && |r| == |base| + |NoteSeparator| + |note.value|
            && base <= r
            && r[|base|..|base| + |NoteSeparator|] == NoteSeparator
            && r[|base| + |NoteSeparator|..] == note.value)
  {
  }

  /** The overspeed and the door text can never coincide, whatever the
      speeds and the formatter: they differ at their eighth character. */
  lemma {:induction false} TemplatesDistinct(speed: real, threshold: real, doorSpeed: real, fixed1: real -> string)
    ensures OverspeedTemplate(speed, threshold, fixed1) != DoorTemplate(doorSpeed, fixed1)
  {
    var o := OverspeedTemplate(speed, threshold, fixed1);
    var d := DoorTemplate(doorSpeed, fixed1);
    OverspeedTemplateShape(speed, threshold, fixed1);
    DoorTemplateShape(doorSpeed, fixed1);
    assert o[7] == OverspeedPrefix[7] == 'O';
    assert d[7] == DoorPrefix[7] == 'D';
  }
}
