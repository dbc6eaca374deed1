/** Stripping metadata from JPEG files (src/server/avatars.rs): the walk over the bytes refines
    "parse the marker segments up to the first scan, drop the application and comment segments that
    carry metadata, write the rest back" (section B.1.1 of ITU-T T.81). */
module Jpeg {
  import opened Wrappers
  import opened BanchoTypes
  import opened Containers

  const SOI: bytes := [0xFF, 0xD8]
  const SOS: u8 := 0xDA
  const EOI: u8 := 0xD9

  // TEM and the restart markers carry no length.
  predicate Standalone(marker: u8) {
    marker == 0x01 || 0xD0 <= marker <= 0xD7
  }

  // APP1, APP13 and COM.
  predicate IsMetadata(marker: u8) {
    marker == 0xE1 || marker == 0xED || marker == 0xFE
  }

  // fill counts the 0xFF bytes in front of the marker; a standalone marker has no body.
  datatype Segment = Segment(fill: nat, marker: u8, body: bytes)

  // The walk ends at a scan, with everything after its marker taken as it is, or at an end of image.
  datatype Ending = Scan(fill: nat, data: bytes) | End(fill: nat)

  datatype Jpeg = Jpeg(segments: seq<Segment>, ending: Ending)

  // ---------- specification ----------

  function Fill(n: nat): (s: bytes)
    ensures |s| == n && forall i :: 0 <= i < n ==> s[i] == 0xFF
  {
    if n == 0 then [] else [0xFF] + Fill(n - 1)
  }

  predicate SegmentOk(g: Segment) {
    && g.fill >= 1 && g.marker != 0xFF && g.marker != SOS && g.marker != EOI
    && (if Standalone(g.marker) then g.body == [] else |g.body| + 2 < 0x1_0000)
  }

  predicate FileOk(j: Jpeg) {
    (forall g :: g in j.segments ==> SegmentOk(g)) && j.ending.fill >= 1
  }

  function SegmentBytes(g: Segment): bytes {
    Fill(g.fill) + ([g.marker] + if Standalone(g.marker) then [] else Be(|g.body| + 2, 2) + g.body)
  }

  function EndingBytes(e: Ending): bytes {
    match e
    case Scan(fill, data) => Fill(fill) + ([SOS] + data)
    case End(fill) => Fill(fill) + [EOI]
  }

  function WrittenTo(gs: seq<Segment>, e: Ending): bytes {
    if gs == [] then EndingBytes(e) else SegmentBytes(gs[0]) + WrittenTo(gs[1..], e)
  }

  function Written(j: Jpeg): bytes {
    WrittenTo(j.segments, j.ending)
  }

  // How many 0xFF bytes stand at the front.
  function Fills(s: bytes): (n: nat)
    ensures n <= |s| && (n < |s| ==> s[n] != 0xFF)
  {
    if s == [] || s[0] != 0xFF then 0 else 1 + Fills(s[1..])
  }

  // What stands at the front: a segment with its size, or the ending.
  datatype Item = Whole(segment: Segment, size: nat) | Last(ending: Ending)

  function Front(s: bytes): (item: Option<Item>)
    ensures item.Some? && item.value.Whole? ==> 0 < item.value.size <= |s|
  {
    var n := Fills(s);
    if n == 0 || n == |s| then None else
    var (marker, rest) := (s[n], s[n + 1..]);
    if marker == SOS then Some(Last(Scan(n, rest)))
    else if marker == EOI then (if rest == [] then Some(Last(End(n))) else None)
    else if Standalone(marker) then Some(Whole(Segment(n, marker, []), n + 1))
    else if |rest| < 2 then None
    else
      var length := BeNum(rest[..2]);
      if length < 2 || length > |rest| then None
      else Some(Whole(Segment(n, marker, rest[2..length]), n + 1 + length))
  }

  function Parsed(s: bytes): Option<Jpeg>
    decreases |s|
  {
    match Front(s)
    case None => None
    case Some(Last(e)) => Some(Jpeg([], e))
    case Some(Whole(g, size)) =>
      match Parsed(s[size..])
      case None => None
      case Some(j) => Some(Jpeg([g] + j.segments, j.ending))
  }

  function Cleaned(gs: seq<Segment>): seq<Segment> {
    if gs == [] then []
    else if IsMetadata(gs[0].marker) then Cleaned(gs[1..])
    else [gs[0]] + Cleaned(gs[1..])
  }

  // Cleaning goes piece by piece and keeps the order.
  lemma {:induction false} CleanedJoins(a: seq<Segment>, b: seq<Segment>)
    ensures Cleaned(a + b) == Cleaned(a) + Cleaned(b)
  {
    if a == [] {
      assert a + b == b;
    } else {
      assert (a + b)[1..] == a[1..] + b;
      CleanedJoins(a[1..], b);
    }
  }

  function CleanedFile(j: Jpeg): Jpeg {
    Jpeg(Cleaned(j.segments), j.ending)
  }

  function Remainder(s: bytes): Option<bytes> {
    match Parsed(s)
    case None => None
    case Some(j) => Some(Written(CleanedFile(j)))
  }

  function Strip(s: bytes): Option<bytes> {
    if !(SOI <= s) then None else
    match Remainder(s[2..])
    case None => None
    case Some(out) => Some(SOI + out)
  }

  // ---------- parsing and writing undo each other ----------

  lemma {:induction false} FillsOfFill(n: nat, m: u8, r: bytes)
    requires m != 0xFF
    ensures var s := Fill(n) + ([m] + r); Fills(s) == n && n < |s| && s[n] == m && s[n + 1..] == r
  {
    var s := Fill(n) + ([m] + r);
    if n == 0 {
      assert s == [m] + r;
    } else {
      FillsOfFill(n - 1, m, r);
      assert s[1..] == Fill(n - 1) + ([m] + r);
    }
  }

  lemma {:induction false} FillOfFills(s: bytes)
    ensures s[..Fills(s)] == Fill(Fills(s))
  {
    if s != [] && s[0] == 0xFF {
      FillOfFills(s[1..]);
      assert s[..Fills(s)] == [s[0]] + s[1..][..Fills(s[1..])];
    }
  }

  lemma FrontOfSegment(g: Segment, r: bytes)
    requires SegmentOk(g)
    ensures Front(SegmentBytes(g) + r) == Some(Whole(g, |SegmentBytes(g)|)) &&
      (SegmentBytes(g) + r)[|SegmentBytes(g)|..] == r
  {
    hide Fill; hide Fills;
    var s := SegmentBytes(g) + r;
    var tail := (if Standalone(g.marker) then [] else Be(|g.body| + 2, 2) + g.body) + r;
    assert s == Fill(g.fill) + ([g.marker] + tail);
    FillsOfFill(g.fill, g.marker, tail);
    if !Standalone(g.marker) {
      BeRoundTrip(|g.body| + 2, 2);
      assert tail[..2] == Be(|g.body| + 2, 2);
      assert tail[2..|g.body| + 2] == g.body;
    }
  }

  lemma FrontOfEnding(e: Ending)
    requires e.fill >= 1
    ensures Front(EndingBytes(e)) == Some(Last(e))
  {
    hide Fill; hide Fills;
    match e
    case Scan(fill, data) => FillsOfFill(fill, SOS, data);
    case End(fill) =>
      FillsOfFill(fill, EOI, []);
      assert [EOI] + [] == [EOI];
  }

  // What stands at the front is well formed, and is written back as the very bytes it came from.
  lemma FrontFits(s: bytes)
    ensures match Front(s)
      case None => true
      case Some(Last(e)) => e.fill >= 1 && EndingBytes(e) == s
      case Some(Whole(g, size)) => SegmentOk(g) && SegmentBytes(g) == s[..size]
  {
    hide Fill;
    var n := Fills(s);
    FillOfFills(s);
    if n != 0 && n != |s| {
      var (marker, rest) := (s[n], s[n + 1..]);
      assert s == Fill(n) + ([marker] + rest);
      if marker != SOS && marker != EOI && !Standalone(marker) && |rest| >= 2 {
        var length := BeNum(rest[..2]);
        if 2 <= length <= |rest| {
          BeOfNum(rest[..2]);
          BeBelow(rest[..2]);
          assert rest[..length] == rest[..2] + rest[2..length];
          assert s[..n + 1 + length] == Fill(n) + ([marker] + rest[..length]);
        }
      } else if marker == EOI && rest == [] {
        assert [EOI] + [] == [EOI];
      } else if Standalone(marker) {
        assert s[..n + 1] == Fill(n) + ([marker] + []);
      }
    }
  }

  lemma {:induction false} WrittenParses(j: Jpeg)
    requires FileOk(j)
    ensures Parsed(Written(j)) == Some(j)
    decreases |j.segments|
  {
    hide SegmentBytes; hide EndingBytes; hide SegmentOk; hide Front;
    if j.segments == [] {
      FrontOfEnding(j.ending);
    } else {
      var rest := Jpeg(j.segments[1..], j.ending);
      FrontOfSegment(j.segments[0], Written(rest));
      WrittenParses(rest);
      assert j.segments == [j.segments[0]] + rest.segments;
    }
  }

  lemma {:induction false} ParsedIsWritten(s: bytes)
    requires Parsed(s).Some?
    ensures FileOk(Parsed(s).value) && Written(Parsed(s).value) == s
    decreases |s|
  {
    hide SegmentBytes; hide EndingBytes; hide SegmentOk; hide Front;
    FrontFits(s);
    match Front(s)
    case None =>
    case Some(Last(e)) =>
    case Some(Whole(g, size)) =>
      ParsedIsWritten(s[size..]);
      var j := Parsed(s[size..]).value;
      assert ([g] + j.segments)[1..] == j.segments;
      assert s == s[..size] + s[size..];
  }

  lemma {:induction false} CleanedTwice(gs: seq<Segment>)
    ensures Cleaned(Cleaned(gs)) == Cleaned(gs)
    ensures forall g :: g in Cleaned(gs) <==> g in gs && !IsMetadata(g.marker)
  {
    if gs != [] { CleanedTwice(gs[1..]); }
  }

  lemma {:induction false} CleanedIsShorter(gs: seq<Segment>, e: Ending)
    ensures |WrittenTo(Cleaned(gs), e)| <= |WrittenTo(gs, e)|
  {
    if gs != [] { CleanedIsShorter(gs[1..], e); }
  }

  // ---------- main results ----------

  lemma StripMeaning(j: Jpeg)
    requires FileOk(j)
    ensures Strip(SOI + Written(j)) == Some(SOI + Written(CleanedFile(j)))
  {
    hide Written;
    WrittenParses(j);
    assert (SOI + Written(j))[2..] == Written(j);
  }

  lemma StripAccepts(s: bytes)
    ensures Strip(s).Some? <==> exists j :: FileOk(j) && s == SOI + Written(j)
  {
    hide Written; hide Parsed; hide FileOk;
    if Strip(s).Some? {
      ParsedIsWritten(s[2..]);
      assert s == SOI + s[2..];
    }
    if j :| FileOk(j) && s == SOI + Written(j) { StripMeaning(j); }
  }

  lemma StripIsShorter(s: bytes)
    requires Strip(s).Some?
    ensures |Strip(s).value| <= |s|
  {
    hide Parsed;
    ParsedIsWritten(s[2..]);
    CleanedIsShorter(Parsed(s[2..]).value.segments, Parsed(s[2..]).value.ending);
  }

  lemma StripTwice(s: bytes)
    requires Strip(s).Some?
    ensures Strip(Strip(s).value) == Strip(s)
  {
    hide Parsed; hide Written; hide Cleaned;
    var j := Parsed(s[2..]).value;
    ParsedIsWritten(s[2..]);
    CleanedTwice(j.segments);
    StripMeaning(CleanedFile(j));
  }

  // ---------- the code ----------

  lemma RemainderStep(s: bytes)
    ensures match Front(s)
      case None => Remainder(s).None?
      case Some(Last(e)) => Remainder(s) == Some(s)
      case Some(Whole(g, size)) =>
        Remainder(s) ==
        Joined(if IsMetadata(g.marker) then [] else s[..size], Remainder(s[size..]))
  {
    hide SegmentBytes; hide EndingBytes; hide SegmentOk; hide Front; hide IsMetadata;
    FrontFits(s);
    match Front(s)
    case None =>
    case Some(Last(e)) =>
    case Some(Whole(g, size)) =>
      if Parsed(s[size..]).Some? {
        var gs := Parsed(s[size..]).value.segments;
        var e := Parsed(s[size..]).value.ending;
        assert ([g] + gs)[1..] == gs;
        assert ([g] + Cleaned(gs))[1..] == Cleaned(gs);
        assert [] + WrittenTo(Cleaned(gs), e) == WrittenTo(Cleaned(gs), e);
      }
  }

  lemma Advance(before: bytes, s: bytes)
    ensures match Front(s)
      case None => Joined(before, Remainder(s)).None?
      case Some(Last(e)) => Joined(before, Remainder(s)) == Some(before + s)
      case Some(Whole(g, size)) =>
        Joined(before, Remainder(s)) ==
          Joined(if IsMetadata(g.marker) then before else before + s[..size], Remainder(s[size..]))
  {
    hide Remainder; hide Front; hide IsMetadata;
    RemainderStep(s);
    match Front(s)
    case None =>
    case Some(Last(e)) =>
    case Some(Whole(g, size)) =>
      JoinedTwice(before, if IsMetadata(g.marker) then [] else s[..size], Remainder(s[size..]));
      assert before + [] == before;
  }

  // The inner loop over fill bytes.
  method SkipFill(input: bytes, from: nat) returns (offset: nat)
    requires from <= |input|
    ensures from <= offset <= |input| && offset - from == Fills(input[from..])
  {
    offset := from;
    while offset < |input| && input[offset] == 0xFF
      invariant from <= offset <= |input|
      invariant Fills(input[from..]) == offset - from + Fills(input[offset..])
    {
      assert input[offset..][1..] == input[offset + 1..];
      offset := offset + 1;
    }
  }

  // strip_jpeg_metadata
  method StripJpeg(input: bytes) returns (r: Option<bytes>)
    ensures r == Strip(input)
  {
    hide Remainder; hide IsMetadata; hide Joined; hide Fills;
    if !(SOI <= input) { return None; }
    var output := input[..2];
    var offset := 2;
    ghost var whole, kept := Remainder(input[2..]), [];
    JoinedNothing(whole);
    while offset < |input|
      invariant 2 <= offset <= |input| && output == SOI + kept
      invariant whole == Joined(kept, Remainder(input[offset..]))
      decreases |input| - offset
    {
      ghost var s := input[offset..];
      Advance(kept, s);
      NoFill(s);
      if input[offset] != 0xFF { return None; }
      var start := offset;
      offset := SkipFill(input, start);
      if offset == |input| { return None; }
      var marker := input[offset];
      offset := offset + 1;
      ghost var n := Fills(s);
      assert s[n] == marker && s[n + 1..] == input[offset..];
      if marker == SOS {
        assert output + input[start..] == SOI + (kept + s);
        return Some(output + input[start..]);
      }
      if marker == EOI {
        if offset != |input| { return None; }
        assert input[start..offset] == s && output + s == SOI + (kept + s);
        return Some(output + input[start..offset]);
      }
      var end := offset;
      if !Standalone(marker) {
        if offset + 2 > |input| { return None; }
        var length := BeNum(input[offset..offset + 2]);
        assert input[offset..offset + 2] == s[n + 1..][..2];
        if length < 2 || offset + length > |input| { return None; }
        end := offset + length;
      }
      assert s[..end - start] == input[start..end] && s[end - start..] == input[end..];
      StandaloneIsKept(marker);
      if !IsMetadata(marker) {
        output := output + input[start..end];
        kept := kept + input[start..end];
      }
      offset := end;
    }
    Advance(kept, input[offset..]);
    NothingLeft(input[offset..]);
    return None;
  }

  lemma NoFill(s: bytes)
    ensures s != [] && s[0] != 0xFF ==> Fills(s) == 0
    ensures s != [] && s[0] == 0xFF ==> Fills(s) > 0
  {
  }

  lemma NothingLeft(s: bytes)
    requires s == []
    ensures Front(s).None?
  {
  }

  lemma StandaloneIsKept(marker: u8)
    ensures Standalone(marker) ==> !IsMetadata(marker)
  {
  }
}
