/**
 * A course event of the Stud.IP timetable: a value whose time range is read from two fixed
 * tables of slot times, and whose equality and hash code look at the title and the
 * lecturers only. Kotlin's Int arithmetic in the hash code wraps at 32 bits, and strings
 * are hashed over their UTF-16 code units, as on the JVM.
 */
module StudIPEvents {
  import opened Wrappers

  datatype StudIPEvent = StudIPEvent(
    title: string,
    lecturer: seq<string>,
    room: string,
    day: int,           // 0 = Monday … 4 = Friday
    timeslotStart: int, // index into the slot tables
    timeslots: int)     // how many consecutive 90-minute slots the event takes

  // ---------------------------------------------------------------------------
  // Time slots

  const TimeSlotStartTimes: seq<string> := ["08:15", "10:15", "12:15", "14:15", "16:15", "18:15"]
  const TimeSlotEndTimes: seq<string> := ["09:45", "11:45", "13:45", "15:45", "17:45", "19:45"]

  /** Between the two times: a space, an en dash and a space. */
  const Separator: string := " – "

  /**
   * The time range as the event computes it when it is constructed: the start of slot
   * timeslotStart and the end of slot timeslots - 1. An index outside a table throws while
   * the event is built, which is None here.
   */
  function TimeslotAsWritten(e: StudIPEvent): (r: Option<string>)
    ensures r.Some? <==> 0 <= e.timeslotStart < 6 && 1 <= e.timeslots <= 6
  {
    if 0 <= e.timeslotStart < |TimeSlotStartTimes| && 0 <= e.timeslots - 1 < |TimeSlotEndTimes|
    then Some(TimeSlotStartTimes[e.timeslotStart] + Separator + TimeSlotEndTimes[e.timeslots - 1])
    else None
  }

  /**
   * The time range of an event that takes `timeslots` consecutive slots from timeslotStart
   * on: it ends where its last slot, timeslotStart + timeslots - 1, ends.
   */
  function Timeslot(e: StudIPEvent): (r: Option<string>)
    ensures r.Some? <==> 0 <= e.timeslotStart && 1 <= e.timeslots && e.timeslotStart + e.timeslots <= 6
  {
    var last := e.timeslotStart + e.timeslots - 1;
    if 0 <= e.timeslotStart && 1 <= e.timeslots && last < |TimeSlotEndTimes|
    then Some(TimeSlotStartTimes[e.timeslotStart] + Separator + TimeSlotEndTimes[last])
    else None
  }

  /** Minutes since midnight of a time written "HH:MM". */
  function ClockMinutes(t: string): int
    requires |t| == 5
  {
    ((t[0] as int - '0' as int) * 10 + (t[1] as int - '0' as int)) * 60
      + (t[3] as int - '0' as int) * 10 + (t[4] as int - '0' as int)
  }

  function StartMinutes(slot: nat): int
    requires slot < 6
  {
    ClockMinutes(TimeSlotStartTimes[slot])
  }

  function EndMinutes(slot: nat): int
    requires slot < 6
  {
    ClockMinutes(TimeSlotEndTimes[slot])
  }

  /** Every slot lasts 90 minutes, and the first starts at 08:15. */
  lemma SlotLasts90(slot: nat)
    requires slot < 6
    ensures EndMinutes(slot) == StartMinutes(slot) + 90
    ensures StartMinutes(slot) == 8 * 60 + 15 + 120 * slot
  {
    var s := TimeSlotStartTimes[slot];
    var t := TimeSlotEndTimes[slot];
    assert s[0] == '0' || s[0] == '1';
    assert s[3] == '1' && s[4] == '5' && t[3] == '4' && t[4] == '5';
  }

  /**
   * The range an event over k slots is meant to show, "HH:MM – HH:MM", runs from the start
   * of its first slot over k slots and the k - 1 breaks of 30 minutes between them.
   */
  lemma TimeslotSpansSlots(e: StudIPEvent)
    requires Timeslot(e).Some?
    ensures var r := Timeslot(e).value;
      && |r| == 13 && r[5..8] == Separator
      && ClockMinutes(r[..5]) == StartMinutes(e.timeslotStart)
      && ClockMinutes(r[8..]) - ClockMinutes(r[..5]) == 90 * e.timeslots + 30 * (e.timeslots - 1)
  {
    var last := e.timeslotStart + e.timeslots - 1;
    var r := Timeslot(e).value;
    assert r == TimeSlotStartTimes[e.timeslotStart] + Separator + TimeSlotEndTimes[last];
    assert r[..5] == TimeSlotStartTimes[e.timeslotStart];
    assert r[8..] == TimeSlotEndTimes[last];
    SlotLasts90(last);
    SlotLasts90(e.timeslotStart);
  }

  /** The end time the event computes is the right one exactly for events that start in the first slot. */
  lemma TimeslotAsWrittenRightOnlyFromFirstSlot(e: StudIPEvent)
    requires Timeslot(e).Some?
    ensures TimeslotAsWritten(e) == Timeslot(e) <==> e.timeslotStart == 0
  {
    var s := e.timeslotStart;
    var k := e.timeslots;
    if TimeslotAsWritten(e) == Timeslot(e) {
      var prefix := TimeSlotStartTimes[s] + Separator;
      assert TimeslotAsWritten(e).value == prefix + TimeSlotEndTimes[k - 1];
      assert Timeslot(e).value == prefix + TimeSlotEndTimes[s + k - 1];
      assert TimeSlotEndTimes[k - 1] == (prefix + TimeSlotEndTimes[k - 1])[|prefix|..];
      assert TimeSlotEndTimes[k - 1] == TimeSlotEndTimes[s + k - 1];
      SlotLasts90(k - 1);
      SlotLasts90(s + k - 1);
    }
  }

  /** A one-slot event from 10:15 on is shown as ending at 09:45, before it starts. */
  lemma TimeslotAsWrittenEndsBeforeStart()
    ensures var e := StudIPEvent("", [], "", 0, 1, 1);
      && TimeslotAsWritten(e) == Some("10:15 – 09:45")
      && EndMinutes(0) < StartMinutes(1)
  {
    assert TimeSlotStartTimes[1] + Separator + TimeSlotEndTimes[0] == "10:15 – 09:45";
    SlotLasts90(0);
    SlotLasts90(1);
  }

  // ---------------------------------------------------------------------------
  // Equality

  /** Events are equal when their titles are, and their lecturer arrays element by element. */
  function Equals(a: StudIPEvent, b: StudIPEvent): (eq: bool)
    ensures eq <==> a.title == b.title && a.lecturer == b.lecturer
  {
    var eq := a.title == b.title && |a.lecturer| == |b.lecturer|
      && forall i | 0 <= i < |a.lecturer| :: a.lecturer[i] == b.lecturer[i];
    assert eq ==> a.lecturer == b.lecturer;
    eq
  }

  /** `equals` with an arbitrary argument: None stands for null or an object of another class. */
  function EqualsAny(a: StudIPEvent, other: Option<StudIPEvent>): (eq: bool)
    ensures eq <==> other.Some? && other.value.title == a.title && other.value.lecturer == a.lecturer
  {
    other.Some? && Equals(a, other.value)
  }

  lemma EqualsIsEquivalence(a: StudIPEvent, b: StudIPEvent, c: StudIPEvent)
    ensures Equals(a, a)
    ensures Equals(a, b) ==> Equals(b, a)
    ensures Equals(a, b) && Equals(b, c) ==> Equals(a, c)
  {
  }

  /** The room, the day and the slots play no part. */
  lemma EqualsIgnoresPlace(a: StudIPEvent, room: string, day: int, timeslotStart: int, timeslots: int)
    ensures Equals(a, a.(room := room, day := day, timeslotStart := timeslotStart, timeslots := timeslots))
  {
  }

  lemma EqualsIgnoresNothingElse(a: StudIPEvent, b: StudIPEvent)
    requires a.title != b.title || a.lecturer != b.lecturer
    ensures !Equals(a, b) && !EqualsAny(a, Some(b))
  {
  }

  // ---------------------------------------------------------------------------
  // Hash code

  const TwoTo32 := 0x1_0000_0000

  /** An unbounded integer as the JVM's 32-bit Int: the value in [-2^31, 2^31) congruent to x. */
  function Int32(x: int): (r: int)
    ensures -0x8000_0000 <= r < 0x8000_0000
    ensures (r - x) % TwoTo32 == 0
  {
    var m := x % TwoTo32;
    if m >= 0x8000_0000 then m - TwoTo32 else m
  }

  /** Congruent values wrap to the same Int. */
  lemma Int32Congruent(x: int, q: int)
    ensures Int32(x + q * TwoTo32) == Int32(x)
  {
    assert (x + q * TwoTo32) % TwoTo32 == x % TwoTo32;
  }

  /** One step `31 * h + u` of the JVM's hash loop, in Int arithmetic. */
  function HashStep(h: int, u: int): int
  {
    Int32(31 * h + u)
  }

  /** The UTF-16 code units of a character: one, or a surrogate pair above U+FFFF. */
  function CodeUnits(c: char): (units: seq<int>)
    ensures 1 <= |units| <= 2
    ensures forall i | 0 <= i < |units| :: 0 <= units[i] < 0x1_0000
  {
    var v := c as int;
    if v < 0x1_0000 then [v]
    else [0xD800 + (v - 0x1_0000) / 0x400, 0xDC00 + (v - 0x1_0000) % 0x400]
  }

  function Utf16(s: string): seq<int>
  {
    if s == [] then [] else Utf16(s[..|s| - 1]) + CodeUnits(s[|s| - 1])
  }

  /** The hash loop over a sequence of values, starting from `init`. */
  function HashFold(xs: seq<int>, init: int): int
  {
    if xs == [] then Int32(init) else HashStep(HashFold(xs[..|xs| - 1], init), xs[|xs| - 1])
  }

  /** String.hashCode: s[0]*31^(n-1) + … + s[n-1] over the UTF-16 code units, as a 32-bit Int. */
  function StringHash(s: string): (h: int)
    ensures h == Int32(Horner(Utf16(s), 0))
  {
    HashFoldIsWrappedHorner(Utf16(s), 0);
    HashFold(Utf16(s), 0)
  }

  function StringHashes(a: seq<string>): (hs: seq<int>)
    ensures |hs| == |a|
  {
    if a == [] then [] else StringHashes(a[..|a| - 1]) + [StringHash(a[|a| - 1])]
  }

  /**
   * Array.contentHashCode of an array of strings, none of them null: the hash loop over the
   * elements' hashes, with a leading 1, as a 32-bit Int.
   */
  function ArrayContentHash(a: seq<string>): (h: int)
    ensures h == Int32(Horner(StringHashes(a), 1))
  {
    HashFoldIsWrappedHorner(StringHashes(a), 1);
    HashFold(StringHashes(a), 1)
  }

  /**
   * The event's hashCode: the title's hash, times 31, plus the lecturers' content hash. The
   * Int arithmetic wraps the exact value of the two hash loops only once.
   */
  function HashCode(e: StudIPEvent): (h: int)
    ensures h == Int32(31 * Horner(Utf16(e.title), 0) + Horner(StringHashes(e.lecturer), 1))
  {
    Int32Linear(Horner(Utf16(e.title), 0), Horner(StringHashes(e.lecturer), 1));
    HashStep(StringHash(e.title), ArrayContentHash(e.lecturer))
  }

  /** Wrapping the operands of `31 * x + y` first does not change the wrapped result. */
  lemma Int32Linear(x: int, y: int)
    ensures HashStep(Int32(x), Int32(y)) == Int32(31 * x + y)
  {
    var qx, qy := (Int32(x) - x) / TwoTo32, (Int32(y) - y) / TwoTo32;
    assert Int32(x) == x + qx * TwoTo32 && Int32(y) == y + qy * TwoTo32;
    assert 31 * Int32(x) + Int32(y) == 31 * x + y + (31 * qx + qy) * TwoTo32;
    Int32Congruent(31 * x + y, 31 * qx + qy);
  }

  /** The documented value of the hash loop, without wrap-around: Horner's scheme in base 31. */
  function Horner(xs: seq<int>, init: int): int
  {
    if xs == [] then init else 31 * Horner(xs[..|xs| - 1], init) + xs[|xs| - 1]
  }

  /** Wrapping after every step is the same as wrapping the exact value once. */
  lemma {:induction false} HashFoldIsWrappedHorner(xs: seq<int>, init: int)
    ensures HashFold(xs, init) == Int32(Horner(xs, init))
    decreases |xs|
  {
    if xs != [] {
      var h := Horner(xs[..|xs| - 1], init);
      HashFoldIsWrappedHorner(xs[..|xs| - 1], init);
      var r := Int32(h);
      var q := (r - h) / TwoTo32;
      assert r == h + q * TwoTo32;
      assert 31 * r + xs[|xs| - 1] == 31 * h + xs[|xs| - 1] + (31 * q) * TwoTo32;
      Int32Congruent(31 * h + xs[|xs| - 1], 31 * q);
    }
  }

  /** Equal events have equal hash codes: the hash reads only what equality compares. */
  lemma EqualEventsEqualHashes(a: StudIPEvent, b: StudIPEvent)
    requires Equals(a, b)
    ensures HashCode(a) == HashCode(b)
  {
  }
}
