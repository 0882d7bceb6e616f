/** Recognised words and speaker turns in absolute session time. */
module Transcript {
  import Timeline

  datatype RawWord = Word(text: string, start: int, end: int) {
    function Interval(): Timeline.TimeInterval
      requires 0 <= start < end
    {
      Timeline.Interval(start, end)
    }
  }

  /** A diarization turn: one cluster speaks. */
  datatype Turn = Turn(cluster: string, interval: Timeline.TimeInterval)

  /** The values the source can build: its constructor raises on anything else. */
  type Word = w: RawWord | 0 <= w.start < w.end witness Word("", 0, 1)
}
