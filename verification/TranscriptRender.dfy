/** Rendering a transcript into a bounded message: drop the oldest segments, then
    clip the newest one, then fall back to the marker and the status. */
module TranscriptRender {
  import opened Sequences
  import opened Wrappers
  import T = Transcript

  /** The non-empty renderings, in order; a segment that fails to render is skipped. */
  function Rendered(segments: seq<T.Segment>, render: T.Segment -> Option<string>): (parts: seq<string>)
    ensures forall i :: 0 <= i < |parts| ==> parts[i] != ""
  {
    if segments == [] then []
    else
      Rendered(segments[..|segments| - 1], render)
      + (match render(segments[|segments| - 1]) case Some(out) => (if out != "" then [out] else []) case None => [])
  }

  /** "\n".join */
  function Joined(parts: seq<string>): (r: string)
    ensures parts != [] && parts[0] != "" ==> r != ""
  {
    if parts == [] then ""
    else if |parts| == 1 then parts[0]
    else parts[0] + "\n" + Joined(parts[1..])
  }

  function StripNewlines(s: string): (r: string)
    ensures |r| <= |s|
  {
    if s != "" && s[0] == '\n' then StripNewlines(s[1..]) else s
  }

  function StatusText(status: string): string {
    if status != "" then "\n\n" + status else ""
  }

  /** Newlines at the start are taken off, and nothing else. */
  lemma {:induction false} StripKeeps(s: string) returns (i: nat)
    ensures i <= |s| && StripNewlines(s) == s[i..] && (i < |s| ==> s[i] != '\n')
    ensures forall k :: 0 <= k < i ==> s[k] == '\n'
  {
    i := 0;
    if s != "" && s[0] == '\n' {
      i := StripKeeps(s[1..]);
      assert forall k :: 0 <= k < i ==> s[1..][k] == s[k + 1];
      i := i + 1;
    }
  }

  function Shows(render: T.Segment -> Option<string>): T.Segment -> bool {
    seg => render(seg).Some? && render(seg).value != ""
  }

  /** What is rendered, and in which order: the segments' own. */
  lemma {:induction false} RenderedInOrder(segments: seq<T.Segment>, render: T.Segment -> Option<string>) returns (ks: seq<nat>)
    ensures Places(ks, segments, Shows(render)) && |ks| == |Rendered(segments, render)|
    ensures forall n :: 0 <= n < |ks| ==> render(segments[ks[n]]) == Some(Rendered(segments, render)[n])
  {
    if segments == [] {
      ks := [];
    } else {
      var front, seg := segments[..|segments| - 1], segments[|segments| - 1];
      ks := RenderedInOrder(front, render);
      SplitLast(segments);
      PlacesSnoc(ks, front, seg, Shows(render));
      assert Rendered(front, render) + [] == Rendered(front, render);
      if Shows(render)(seg) {
        ks := ks + [|front|];
      }
    }
  }

  /** One newline between parts that follow each other. */
  lemma {:induction false} JoinedParts(a: seq<string>, b: seq<string>)
    requires a != [] && b != []
    ensures Joined(a + b) == Joined(a) + "\n" + Joined(b)
  {
    if |a| == 1 {
      assert (a + b)[1..] == b;
    } else {
      JoinedParts(a[1..], b);
      assert (a + b)[1..] == a[1..] + b;
      assert a[0] + "\n" + (Joined(a[1..]) + "\n" + Joined(b)) == (a[0] + "\n" + Joined(a[1..])) + "\n" + Joined(b);
    }
  }

  /** What a message looks like: its parts line by line, a blank line, the status. */
  lemma Layout(first: string, second: string, status: string)
    requires status != ""
    ensures Joined([first, second]) + StatusText(status) == first + "\n" + second + "\n\n" + status
  {
    assert [first, second][1..] == [second];
  }

  /** The marker and the segments from k on. */
  function Suffix(parts: seq<string>, marker: string, status: string, k: nat): string
    requires k <= |parts|
  {
    marker + Joined(parts[k..]) + StatusText(status)
  }

  method Render(segments: seq<T.Segment>, render: T.Segment -> Option<string>, marker: string, limit: int, status: string)
    returns (out: string)
    // Everything, if it fits.
    ensures var parts := Rendered(segments, render);
            |Joined(parts) + StatusText(status)| <= limit ==> out == Joined(parts) + StatusText(status)
    // Otherwise the longest strict suffix that fits after the marker.
    ensures var parts := Rendered(segments, render);
            |Joined(parts) + StatusText(status)| > limit ==>
            forall k :: 0 <= k < |parts| && |Suffix(parts, marker, status, k)| <= limit
                        && (forall j :: 0 <= j < k ==> |Suffix(parts, marker, status, j)| > limit) ==>
              k > 0 && out == Suffix(parts, marker, status, k)
    // When not even the newest segment fits, it is clipped to fill the limit exactly, budget allowing.
    ensures var parts := Rendered(segments, render);
            var budget := limit - |marker| - |StatusText(status)|;
            |Joined(parts) + StatusText(status)| > limit && parts != []
            && (forall k :: 0 <= k < |parts| ==> |Suffix(parts, marker, status, k)| > limit) ==>
              if budget > 20 then
                |parts[|parts| - 1]| > budget && |out| == limit
                && out == marker + "..." + parts[|parts| - 1][|parts[|parts| - 1]| - (budget - 3)..] + StatusText(status)
              else if |marker + StripNewlines(StatusText(status))| <= limit then
                out == marker + StripNewlines(StatusText(status))
              else out == status
    // With nothing to show and a status too long, the bare status.
    ensures Rendered(segments, render) == [] && |StatusText(status)| > limit ==> out == status
    // The bound.
    ensures |out| <= limit || out == status
  {
    var rendered := Rendered(segments, render);
    var statusText := StatusText(status);
    out := Joined(rendered) + statusText;
    SuffixesLonger(rendered, marker, status);
    if |out| <= limit {
      return;
    }
    var parts := rendered;
    var lastPart := "";
    ghost var k := 0;
    assert rendered[0..] == rendered;
    while |parts| > 0
      invariant k <= |rendered| && parts == rendered[k..]
      invariant k > 0 ==> lastPart == rendered[k - 1]
      invariant forall j :: 0 <= j < k ==> |Suffix(rendered, marker, status, j)| > limit
      decreases |parts|
    {
      out := marker + Joined(parts) + statusText;
      assert out == Suffix(rendered, marker, status, k);
      if |out| <= limit {
        assert k > 0;
        return;
      }
      lastPart := parts[0];
      parts := parts[1..];
      k := k + 1;
    }
    if |rendered| > 0 {
      assert rendered[|rendered| - 1..] == [lastPart];
      assert |Suffix(rendered, marker, status, |rendered| - 1)| > limit;
      var budget := limit - |marker| - |statusText|;
      if budget > 20 {
        assert |lastPart| > budget; // so the clip always applies
        out := marker + "..." + lastPart[|lastPart| - (budget - 3)..] + statusText;
        return;
      }
      out := marker + StripNewlines(statusText);
      if |out| <= limit {
        return;
      }
    }
    out := status;
  }

  lemma SuffixesLonger(parts: seq<string>, marker: string, status: string)
    ensures |Suffix(parts, marker, status, 0)| >= |Joined(parts) + StatusText(status)|
  {
    assert parts[0..] == parts;
  }

  // ---- Clipping inside a segment ---------------------------------------------------

  /** Python's `raw[-k:]` */
  function LastChars(raw: string, k: int): string {
    if k > 0 then (if k <= |raw| then raw[|raw| - k..] else raw)
    else if -k <= |raw| then raw[-k..]
    else ""
  }

  /** A segment's own text cut to its tail when longer than `max`. */
  function TailClip(raw: string, max: int): string {
    if |raw| > max then "..." + LastChars(raw, max - 3) else raw
  }

  /** The cut respects its maximum exactly when nothing is cut or the maximum is
      above three: at three the whole text comes back, with dots before it. */
  lemma TailClipFitsIff(raw: string, max: int)
    ensures |TailClip(raw, max)| <= max <==> |raw| <= max || max > 3
    ensures |raw| > max > 3 ==> |TailClip(raw, max)| == max && TailClip(raw, max)[3..] == raw[|raw| - (max - 3)..]
  {
  }
}
