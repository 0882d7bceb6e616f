/** The dedup key of a final segment: its times, speaker and track, joined by colons. */
module DedupKeys {
  import opened Decimals
  import opened Options

  /** A missing track is written `None`. */
  function TrackText(track: Option<nat>): (r: string)
    ensures ':' !in r
  {
    if track.None? then "None" else Decimal(track.value)
  }

  lemma TrackTextInjective(a: Option<nat>, b: Option<nat>)
    ensures TrackText(a) == TrackText(b) <==> a == b
  {
    if a.Some? && b.Some? {
      DecimalInjective(a.value, b.value);
    }
    assert "None"[0] == 'N';
  }

  function DedupKey(start: nat, end: nat, speaker: string, track: Option<nat>): string {
    Decimal(start) + [':'] + (Decimal(end) + [':'] + (speaker + [':'] + TrackText(track)))
  }

  lemma NoColonBefore(a: string, u: string)
    requires ':' !in a
    ensures forall n :: 0 <= n < |a| ==> (a + [':'] + u)[n] != ':'
    ensures (a + [':'] + u)[|a|] == ':'
  {
  }

  lemma NoColonAfter(u: string, a: string)
    requires ':' !in a
    ensures forall n :: |u| < n <= |u| + |a| ==> (u + [':'] + a)[n] != ':'
    ensures (u + [':'] + a)[|u|] == ':'
  {
    forall n | |u| < n <= |u| + |a|
      ensures (u + [':'] + a)[n] != ':'
    {
      assert (u + [':'] + a)[n] == a[n - |u| - 1];
    }
  }

  lemma SplitFirst(a: string, u: string, b: string, v: string)
    requires ':' !in a && ':' !in b && a + [':'] + u == b + [':'] + v
    ensures a == b && u == v
  {
    var s, t := a + [':'] + u, b + [':'] + v;
    NoColonBefore(a, u);
    NoColonBefore(b, v);
    assert |a| == |b|;
    assert a == s[..|a|] && b == t[..|b|];
    assert u == s[|a| + 1..] && v == t[|b| + 1..];
  }

  lemma SplitLast(u: string, a: string, v: string, b: string)
    requires ':' !in a && ':' !in b && u + [':'] + a == v + [':'] + b
    ensures a == b && u == v
  {
    var s, t := u + [':'] + a, v + [':'] + b;
    NoColonAfter(u, a);
    NoColonAfter(v, b);
    assert |u| == |v|;
    assert u == s[..|u|] && v == t[..|v|];
    assert a == s[|u| + 1..] && b == t[|v| + 1..];
  }

  /** Equal keys mean equal times, speaker and track, whatever characters the speaker's identifier has. */
  lemma DedupKeyInjective(start: nat, end: nat, speaker: string, track: Option<nat>,
                          start': nat, end': nat, speaker': string, track': Option<nat>)
    ensures DedupKey(start, end, speaker, track) == DedupKey(start', end', speaker', track')
       <==> start == start' && end == end' && speaker == speaker' && track == track'
  {
    hide Decimal, TrackText;
    if DedupKey(start, end, speaker, track) == DedupKey(start', end', speaker', track') {
      SplitFirst(Decimal(start), Decimal(end) + [':'] + (speaker + [':'] + TrackText(track)),
                 Decimal(start'), Decimal(end') + [':'] + (speaker' + [':'] + TrackText(track')));
      SplitFirst(Decimal(end), speaker + [':'] + TrackText(track), Decimal(end'), speaker' + [':'] + TrackText(track'));
      SplitLast(speaker, TrackText(track), speaker', TrackText(track'));
      DecimalInjective(start, start');
      DecimalInjective(end, end');
      TrackTextInjective(track, track');
    }
  }
}
