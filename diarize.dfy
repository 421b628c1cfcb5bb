/**
 * Record-level speaker assignment: each subtitle record takes the speaker
 * of the first diarization interval that contains its midpoint.
 */
module Diarize {

  /** One diarization interval: start and end in seconds, and the speaker heard in it. */
  datatype Interval = Interval(start: real, end: real, speaker: int)

  /**
   * One subtitle record, updated in place: index, times in milliseconds,
   * text, and the speaker the assignment writes.
   */
  class SrtRecord {
    var index: int
    var start: int
    var end: int
    var text: string
    var speaker: int

    constructor(index: int, start: int, end: int, text: string)
      ensures this.index == index && this.start == start && this.end == end && this.text == text
      ensures speaker == 0
    {
      this.index := index;
      this.start := start;
      this.end := end;
      this.text := text;
      speaker := 0;
    }
  }

  /** `(start + end) / 2 / 1000`: the midpoint of a subtitle, in seconds, from times in milliseconds. */
  function Midpoint(start: int, end: int): real
  {
    (start + end) as real / 2.0 / 1000.0
  }

  /** Whether the interval contains the instant, both bounds included. */
  predicate Contains(iv: Interval, t: real)
  {
    iv.start <= t <= iv.end
  }

  /**
   * The speaker of the first interval, in list order, that contains `t`;
   * 0 when none does.
   */
  function FirstMatch(intervals: seq<Interval>, t: real): (speaker: int)
    ensures (forall k :: 0 <= k < |intervals| ==> !Contains(intervals[k], t)) ==> speaker == 0
    ensures forall k :: (0 <= k < |intervals| && Contains(intervals[k], t)
      && (forall j :: 0 <= j < k ==> !Contains(intervals[j], t))) ==> speaker == intervals[k].speaker
    decreases |intervals|
  {
    if |intervals| == 0 then 0
    else if Contains(intervals[0], t) then intervals[0].speaker
    else
      var rest := intervals[1..];
      assert forall k :: 1 <= k < |intervals| ==> intervals[k] == rest[k - 1];
      FirstMatch(rest, t)
  }

  /** The speaker a record is given. */
  function SpeakerFor(intervals: seq<Interval>, start: int, end: int): int
  {
    FirstMatch(intervals, Midpoint(start, end))
  }

  /**
   * `assign_speakers_to_srt`: every record's speaker is set from its own
   * times, nothing else of any record changes, and the same list is returned.
   */
  method AssignSpeakersToSrt(records: seq<SrtRecord>, intervals: seq<Interval>) returns (result: seq<SrtRecord>)
    modifies set r | r in records
    ensures result == records
    ensures forall r :: r in records ==> r.speaker == SpeakerFor(intervals, r.start, r.end)
    ensures forall r :: r in records ==>
      r.index == old(r.index) && r.start == old(r.start) && r.end == old(r.end) && r.text == old(r.text)
  {
    if |intervals| == 0 {
      for i := 0 to |records|
        invariant forall k :: 0 <= k < i ==> records[k].speaker == 0
        invariant forall r :: r in records ==>
          r.index == old(r.index) && r.start == old(r.start) && r.end == old(r.end) && r.text == old(r.text)
      {
        records[i].speaker := 0;
      }
      return records;
    }
    for i := 0 to |records|
      invariant forall k :: 0 <= k < i ==> records[k].speaker == SpeakerFor(intervals, records[k].start, records[k].end)
      invariant forall r :: r in records ==>
        r.index == old(r.index) && r.start == old(r.start) && r.end == old(r.end) && r.text == old(r.text)
    {
      var rec := records[i];
      var mid := (rec.start + rec.end) as real / 2.0 / 1000.0;
      var speaker := 0;
      var j := 0;
      while j < |intervals|
        invariant 0 <= j <= |intervals|
        invariant forall k :: 0 <= k < j ==> !Contains(intervals[k], mid)
        invariant speaker == 0
      {
        if intervals[j].start <= mid <= intervals[j].end {
          speaker := intervals[j].speaker;
          break;
        }
        j := j + 1;
      }
      assert speaker == FirstMatch(intervals, mid);
      rec.speaker := speaker;
    }
    return records;
  }
}
