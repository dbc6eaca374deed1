/** The multipart form parser of src/server/web.rs, and that it reads back the fields of a body laid
    out as section 5.1.1 of RFC 2046 says. */
module Multipart {
  import opened Wrappers
  import opened BanchoTypes
  import opened Sequences
  import opened Wire
  import opened Search
  import opened LossyText

  const CRLF: bytes := [13, 10]
  const BLANK: bytes := [13, 10, 13, 10]
  const DASHES: bytes := [45, 45]
  const NAME_IS: bytes := [110, 97, 109, 101, 61, 34]                     // name="
  const FILENAME_IS: bytes := [102, 105, 108, 101, 110, 97, 109, 101, 61] // filename=
  const QUOTE: bytes := [34]
  const SCORE: bytes := [115, 99, 111, 114, 101]
  const SCORE_REPLAY: bytes := [115, 99, 111, 114, 101, 95, 114, 101, 112, 108, 97, 121]
  const LZMA: bytes := [0x5D, 0, 0, 0x20, 0]

  // ---------- one part ----------

  function DropCrlf(s: bytes): bytes {
    if StartsWith(s, CRLF) then s[2..] else s
  }

  function TrimCrlf(s: bytes): bytes {
    if |s| >= 2 && s[|s| - 2..] == CRLF then s[..|s| - 2] else s
  }

  // The key under which a field is stored: a replay file in the score field has one of its own.
  function KeyOf(headers: bytes, name: bytes, content: bytes): bytes {
    if name == SCORE && (Find(Lossy(headers), FILENAME_IS).Some? || StartsWith(content, LZMA)) then SCORE_REPLAY
      else name
  }

  // The name is looked for in the header block as text.
  function NameIn(headers: bytes): Option<bytes> {
    Quoted(Lossy(headers))
  }

  // What stands between the first name=" and the next quote.
  function Quoted(headers: bytes): Option<bytes> {
    match Find(headers, NAME_IS)
    case None => None
    case Some(i) =>
      var after := headers[i + 6..];
      match Find(after, QUOTE)
      case None => None
      case Some(j) => Some(after[..j])
  }

  function FieldOf(part: bytes): Option<(bytes, bytes)> {
    match Find(part, BLANK)
    case None => None
    case Some(sep) =>
      var (headers, content) := (part[..sep], TrimCrlf(part[sep + 4..]));
      match NameIn(headers)
      case None => None
      case Some(name) => Some((KeyOf(headers, name, content), content))
  }

  // ---------- the whole body ----------

  // What stands between the delimiters, less a line break after each.
  function Parts(s: bytes, delimiter: bytes): seq<bytes>
    requires delimiter != []
    decreases |s|
  {
    match Find(s, delimiter)
    case None => []
    case Some(pos) =>
      var part := DropCrlf(s[pos + |delimiter|..]);
      match Find(part, delimiter)
      case None => [part]
      case Some(p) => [part[..p]] + Parts(part[p..], delimiter)
  }

  function Collected(parts: seq<bytes>): map<bytes, bytes> {
    if parts == [] then map[] else
    var front := Collected(parts[..|parts| - 1]);
    match FieldOf(parts[|parts| - 1])
    case None => front
    case Some((key, content)) => front[key := content]
  }

  // ---------- the code ----------

  method ReadField(part: bytes) returns (field: Option<(bytes, bytes)>)
    ensures field == FieldOf(part)
  {
    hide Find; hide StartsWith; hide Lossy;
    var sep := FindBytes(part, BLANK);
    if sep.None? { return None; }
    var headers, content := part[..sep.value], part[sep.value + 4..];
    if |content| >= 2 && content[|content| - 2..] == CRLF { content := content[..|content| - 2]; }
    var text := Lossy(headers);
    var at := FindBytes(text, NAME_IS);
    if at.None? { return None; }
    var after := text[at.value + 6..];
    var end := FindBytes(after, QUOTE);
    if end.None? { return None; }
    var name := after[..end.value];
    var file := FindBytes(text, FILENAME_IS);
    if name == SCORE && (file.Some? || StartsWith(content, LZMA)) { return Some((SCORE_REPLAY, content)); }
    return Some((name, content));
  }

  // The part behind the next delimiter, where it ends, and whether a delimiter follows.
  method NextPart(body: bytes, start: nat, delimiter: bytes) returns (found: bool, part: bytes, end: nat, more: bool)
    requires start <= |body| && delimiter != []
    ensures !found ==> Parts(body[start..], delimiter) == []
    ensures found ==> start < end <= |body|
    ensures found ==> Parts(body[start..], delimiter) == [part] + if more then Parts(body[end..], delimiter) else []
  {
    hide Find; hide DropCrlf; hide Parts;
    part, end, more := [], start, false;
    var pos := FindBytes(body[start..], delimiter);
    if pos.None? { NoParts(body[start..], delimiter); return false, part, end, more; }
    var partStart := start + pos.value + |delimiter|;
    if partStart + 2 <= |body| && body[partStart..partStart + 2] == CRLF { partStart := partStart + 2; }
    PartAt(body, start, pos.value, delimiter);
    PartsStep(body[start..], delimiter, pos.value);
    var next := FindBytes(body[partStart..], delimiter);
    end := if next.Some? then partStart + next.value else |body|;
    part := body[partStart..end];
    assert body[partStart..][..end - partStart] == part;
    if next.Some? { assert body[partStart..][next.value..] == body[end..]; } else { assert body[partStart..] == part; }
    return true, part, end, next.Some?;
  }

  // The multipart arm of parse_post_params_raw, for a given boundary. It ends on every body.
  method ParseBody(body: bytes, boundary: bytes) returns (fields: map<bytes, bytes>)
    ensures fields == Collected(Parts(body, DASHES + boundary))
  {
    hide Find; hide FieldOf; hide DropCrlf; hide Collected; hide Parts;
    var delimiter := DASHES + boundary;
    fields := map[];
    NothingCollected();
    var start, more := 0, true;
    ghost var done: seq<bytes> := [];
    assert body[0..] == body;
    while more
      invariant start <= |body| && fields == Collected(done)
      invariant Parts(body, delimiter) == done + if more then Parts(body[start..], delimiter) else []
      decreases |body| - start, more
    {
      var found, part, end, goOn := NextPart(body, start, delimiter);
      if found {
        var field := ReadField(part);
        if field.Some? { fields := fields[field.value.0 := field.value.1]; }
        CollectedOneMore(done, part);
        assert done + ([part] + if goOn then Parts(body[end..], delimiter) else []) ==
               (done + [part]) + if goOn then Parts(body[end..], delimiter) else [];
        done := done + [part];
        start := end;
      }
      more := found && goOn;
    }
    assert done + [] == done;
  }

  lemma NothingCollected()
    ensures Collected([]) == map[]
  {
  }

  lemma CollectedOneMore(parts: seq<bytes>, part: bytes)
    ensures Collected(parts + [part]) == match FieldOf(part)
      case None => Collected(parts)
      case Some((key, content)) => Collected(parts)[key := content]
  {
    assert (parts + [part])[..|parts|] == parts;
  }

  lemma NoParts(s: bytes, delimiter: bytes)
    requires delimiter != [] && Find(s, delimiter).None?
    ensures Parts(s, delimiter) == []
  {
  }

  lemma PartsStep(s: bytes, delimiter: bytes, pos: nat)
    requires delimiter != [] && Find(s, delimiter) == Some(pos)
    ensures var part := DropCrlf(s[pos + |delimiter|..]);
      Parts(s, delimiter) == match Find(part, delimiter)
        case None => [part]
        case Some(p) => [part[..p]] + Parts(part[p..], delimiter)
  {
  }

  lemma PartAt(body: bytes, start: nat, pos: nat, delimiter: bytes)
    requires start <= |body| && pos + |delimiter| <= |body| - start
    ensures var at := start + pos + |delimiter|;
      var partStart := if at + 2 <= |body| && body[at..at + 2] == CRLF then at + 2 else at;
      body[partStart..] == DropCrlf(body[start..][pos + |delimiter|..])
  {
    var at := start + pos + |delimiter|;
    assert body[start..][pos + |delimiter|..] == body[at..];
    if at + 2 <= |body| {
      assert body[at..][..2] == body[at..at + 2];
      assert body[at..][2..] == body[at + 2..];
    }
  }

  // ---------- bodies as the standard lays them out ----------

  // A field: its name, what stands before and after the name parameter in its header block, and its
  // raw content.
  datatype Field = Field(prefix: bytes, name: bytes, suffix: bytes, content: bytes) {
    function headers(): bytes {
      HeaderBlock(prefix, name, suffix)
    }

    // The name as text, which is the name itself exactly when that is UTF-8.
    function text(): (s: bytes)
      ensures s == name <==> Utf8(name)
    {
      LossyIsSameIff(name);
      Lossy(name)
    }
  }

  function HeaderBlock(prefix: bytes, name: bytes, suffix: bytes): bytes {
    prefix + (NAME_IS + (name + (QUOTE + suffix)))
  }

  function PartBytes(f: Field): bytes {
    f.headers() + (BLANK + (f.content + CRLF))
  }

  function Layout(fields: seq<Field>, delimiter: bytes): bytes {
    if fields == [] then delimiter + (DASHES + CRLF)
    else delimiter + (CRLF + (PartBytes(fields[0]) + Layout(fields[1..], delimiter)))
  }

  // No earlier name=" in a header block than the one of the name parameter itself.
  predicate NameFirst(prefix: bytes) {
    Find(prefix + NAME_IS, NAME_IS) == Some(|prefix|)
  }

  // The name holds no quote and is the first name parameter of its header block, the block ends at its
  // first blank line, and neither it nor the content holds the delimiter.
  predicate FieldOk(f: Field, delimiter: bytes) {
    && NameFirst(f.prefix) && 34 !in f.name
    && Find(f.headers() + BLANK, BLANK) == Some(|f.headers()|)
    && Free(f.headers(), delimiter) && Free(f.content, delimiter)
  }

  predicate FieldsOk(fields: seq<Field>, delimiter: bytes) {
    forall f :: f in fields ==> FieldOk(f, delimiter)
  }

  // A delimiter holds no line break, so it cannot reach across one.
  predicate DelimiterOk(delimiter: bytes) {
    StartsWith(delimiter, DASHES) && |delimiter| > 2 && 13 !in delimiter
  }

  // ---------- which name is read ----------

  // Looking past the end of a needle that stands at k does not change where it is first found.
  lemma FirstStaysFirst(s: bytes, r: bytes, needle: bytes, k: nat)
    requires needle != [] && k + |needle| == |s| && s[k..] == needle
    ensures exists i: nat :: i <= k && Find(s, needle) == Some(i) && Find(s + r, needle) == Some(i)
  {
    FindIsFirst(s, needle);
    assert At(s, needle, k);
    var i := Find(s, needle).value;
    assert At(s, needle, i) && i <= k;
    forall j: nat | j <= i ensures At(s + r, needle, j) <==> At(s, needle, j) {
      assert (s + r)[j..j + |needle|] == s[j..j + |needle|];
    }
    FoundAt(s + r, needle, i);
  }

  lemma QuoteFound(text: bytes, r: bytes)
    requires 34 !in text
    ensures Find(text + (QUOTE + r), QUOTE) == Some(|text|)
  {
    var s := text + (QUOTE + r);
    forall i: nat | i < |text| ensures !At(s, QUOTE, i) {
      assert s[i..i + 1][0] == text[i];
      assert text[i] in text;
    }
    assert s[|text|..|text| + 1] == QUOTE;
    FoundAt(s, QUOTE, |text|);
  }

  // The quote that ends the text read from position i, when one stands at q.
  lemma QuoteBy(s: bytes, q: nat)
    requires q < |s| && s[q] == 34
    ensures Find(s, QUOTE).Some? && Find(s, QUOTE).value <= q
  {
    FindIsFirst(s, QUOTE);
    assert s[q..q + 1] == QUOTE;
    assert At(s, QUOTE, q);
  }

  // In the bytes of a block the first name=" decides: its own name as far as a quote when it is the
  // declaration's, and otherwise something that does not depend on the declared name at all.
  lemma QuotedInBlock(prefix: bytes, name: bytes, suffix: bytes)
    ensures NameFirst(prefix) ==> Quoted(HeaderBlock(prefix, name, suffix)).Some?
    ensures NameFirst(prefix) ==> (Quoted(HeaderBlock(prefix, name, suffix)) == Some(name) <==> 34 !in name)
    ensures !NameFirst(prefix) ==> Quoted(prefix + NAME_IS).Some?
    ensures !NameFirst(prefix) ==> Quoted(HeaderBlock(prefix, name, suffix)) == Quoted(prefix + NAME_IS)
  {
    hide Find;
    var (front, rest) := (prefix + NAME_IS, name + (QUOTE + suffix));
    var h := HeaderBlock(prefix, name, suffix);
    assert h == front + rest;
    FirstStaysFirst(front, rest, NAME_IS, |prefix|);
    var i :| i <= |prefix| && Find(front, NAME_IS) == Some(i) && Find(h, NAME_IS) == Some(i);
    if i == |prefix| {
      assert h[i + 6..] == rest;
      NameUpToQuote(name, suffix);
    } else {
      var after := front[i + 6..];
      assert h[i + 6..] == after + rest;
      assert after[|prefix| - i - 1] == front[|prefix| + 5] == 34;
      QuoteBy(after, |prefix| - i - 1);
      FirstQuoteStays(after, rest);
    }
  }

  lemma NameUpToQuote(name: bytes, suffix: bytes)
    ensures var rest := name + (QUOTE + suffix);
      Find(rest, QUOTE).Some? && (rest[..Find(rest, QUOTE).value] == name <==> 34 !in name)
  {
    var rest := name + (QUOTE + suffix);
    assert rest[|name|] == 34;
    QuoteBy(rest, |name|);
    var j := Find(rest, QUOTE).value;
    if 34 !in name {
      QuoteFound(name, suffix);
    } else {
      var q :| 0 <= q < |name| && name[q] == 34;
      assert rest[q] == 34;
      QuoteBy(rest, q);
      assert |rest[..j]| < |name|;
    }
  }

  lemma FirstQuoteStays(after: bytes, rest: bytes)
    requires Find(after, QUOTE).Some?
    ensures Find(after + rest, QUOTE) == Find(after, QUOTE)
    ensures (after + rest)[..Find(after, QUOTE).value] == after[..Find(after, QUOTE).value]
  {
    FindIsFirst(after, QUOTE);
    var j := Find(after, QUOTE).value;
    forall i: nat | i <= j ensures At(after + rest, QUOTE, i) <==> At(after, QUOTE, i) {
      assert (after + rest)[i..i + 1] == after[i..i + 1];
    }
    FoundAt(after + rest, QUOTE, j);
  }

  lemma NoQuoteInside(headers: bytes)
    ensures Quoted(headers).Some? ==> 34 !in Quoted(headers).value
  {
    hide Find;
    if Quoted(headers).Some? {
      var after := headers[Find(headers, NAME_IS).value + 6..];
      FindIsFirst(after, QUOTE);
      var j := Find(after, QUOTE).value;
      forall k | 0 <= k < j ensures after[..j][k] != 34 {
        assert !At(after, QUOTE, k) && after[k..k + 1] == [after[k]];
      }
    }
  }

  // Converting a block to text converts the name found in it.
  lemma NameIsLossy(headers: bytes)
    ensures NameIn(headers) == match Quoted(headers) case None => None case Some(name) => Some(Lossy(name))
  {
    hide Find; hide Lossy;
    FindLossy(headers, NAME_IS);
    if Find(headers, NAME_IS).Some? {
      var i := Find(headers, NAME_IS).value;
      var after := headers[i + 6..];
      FindIsFirst(headers, NAME_IS);
      LossyFromFound(headers, NAME_IS, i);
      CutBehind(Lossy(headers[..i]), NAME_IS, Lossy(after));
      FindLossy(after, QUOTE);
      if Find(after, QUOTE).Some? {
        var j := Find(after, QUOTE).value;
        FindIsFirst(after, QUOTE);
        LossyFromFound(after, QUOTE, j);
        CutBehind(Lossy(after[..j]), QUOTE, Lossy(after[j + 1..]));
      }
    }
  }

  lemma CutBehind(a: bytes, b: bytes, c: bytes)
    ensures (a + (b + c))[|a| + |b|..] == c && (a + (b + c))[..|a|] == a
  {
    ThreePieces(a, b, c);
  }

  lemma QuoteIn(s: bytes)
    ensures Find(s, QUOTE).Some? <==> 34 in s
  {
    FindIsFirst(s, QUOTE);
    forall k | 0 <= k < |s| ensures s[k..k + 1] == [s[k]] { }
    forall k: nat | k < |s| ensures At(s, QUOTE, k) <==> s[k] == 34 { }
  }

  lemma QuotesStay(s: bytes)
    ensures 34 in Lossy(s) ==> 34 in s
  {
    hide Lossy; hide Find;
    FindLossy(s, QUOTE);
    QuoteIn(s);
    QuoteIn(Lossy(s));
  }

  // A name is read back from behind a prefix in which no other name=" begins exactly when it holds no quote
  // and is UTF-8; behind any other prefix something is read that does not depend on it.
  lemma NameOfBlock(prefix: bytes, name: bytes, suffix: bytes)
    ensures NameFirst(prefix) ==>
      (NameIn(HeaderBlock(prefix, name, suffix)) == Some(name) <==> 34 !in name && Utf8(name))
    ensures NameFirst(prefix) && 34 !in name ==> NameIn(HeaderBlock(prefix, name, suffix)) == Some(Lossy(name))
    ensures !NameFirst(prefix) ==> NameIn(prefix + NAME_IS).Some?
    ensures !NameFirst(prefix) ==> NameIn(HeaderBlock(prefix, name, suffix)) == NameIn(prefix + NAME_IS)
  {
    hide NameIn; hide Quoted; hide NameFirst; hide HeaderBlock; hide Utf8;
    var h := HeaderBlock(prefix, name, suffix);
    QuotedInBlock(prefix, name, suffix);
    NameIsLossy(h);
    NameIsLossy(prefix + NAME_IS);
    LossyIsSameIff(name);
    if NameFirst(prefix) {
      NoQuoteInside(h);
      QuotesStay(Quoted(h).value);
    }
  }

  // Every UTF-8 name without a quote is read back from behind this prefix exactly when no other name="
  // stands earlier in it.
  lemma NamesReadBackIff(prefix: bytes, suffix: bytes)
    ensures NameFirst(prefix) <==>
      forall name :: 34 !in name && Utf8(name) ==> NameIn(HeaderBlock(prefix, name, suffix)) == Some(name)
  {
    hide NameIn; hide NameFirst; hide HeaderBlock;
    forall name ensures NameFirst(prefix) && 34 !in name && Utf8(name) ==>
      NameIn(HeaderBlock(prefix, name, suffix)) == Some(name)
    { NameOfBlock(prefix, name, suffix); }
    if !NameFirst(prefix) {
      NameOfBlock(prefix, [], suffix);
      var n := NameIn(prefix + NAME_IS).value;
      var other: bytes := if n == [] then [97] else [];
      NameOfBlock(prefix, other, suffix);
      ShortNames();
      assert 34 !in other && NameIn(HeaderBlock(prefix, other, suffix)) != Some(other);
    }
  }

  lemma ShortNames()
    ensures Utf8([]) && Utf8([97])
  {
    assert [97][1..] == [];
  }

  // A name that is not UTF-8 is stored under replacement characters, so that two different names can share
  // one key.
  lemma NameNotUtf8(b: u8)
    requires b >= 0x80
    ensures NameFirst([]) && 34 !in [b] && NameIn(HeaderBlock([], [b], [])) == Some(REPLACEMENT)
  {
    hide NameIn; hide Quoted; hide Lossy;
    assert [] + NAME_IS == NAME_IS;
    FoundHere(NAME_IS, NAME_IS);
    QuotedInBlock([], [b], []);
    NameIsLossy(HeaderBlock([], [b], []));
    LoneByte(b);
  }

  lemma LoneByte(b: u8)
    requires b >= 0x80
    ensures Lossy([b]) == REPLACEMENT
  {
    assert [b][1..] == [];
    assert CharLength([b]) == 0 && BadLength([b]) == 1;
  }

  const FILENAME_A: bytes := FILENAME_IS + [34, 97, 34, 59, 32]           // filename="a"; and a space

  const FILE: bytes := [102, 105, 108, 101]
  const AFTER_A: bytes := [59, 32] + (NAME_IS + ([98] + (QUOTE + [])))    // ; name="b"

  // The name= inside filename= counts as well: a file name written first is taken for the field's name.
  lemma FilenameFirst()
    ensures NameIn(HeaderBlock(FILENAME_A, [98], [])) == Some([97]) && !NameFirst(FILENAME_A)
  {
    hide NameIn; hide NameFirst; hide HeaderBlock;
    FilenameBlock();
    ShortNames();
    FilenameRead([97], AFTER_A);
    NameOfBlock(FILENAME_A, [98], []);
  }

  lemma FilenameBlock()
    ensures HeaderBlock(FILENAME_A, [98], []) == FILE + (NAME_IS + ([97] + (QUOTE + AFTER_A)))
  {
    assert FILENAME_A == FILE + (NAME_IS + [97, 34, 59, 32]);
  }

  lemma FilenameRead(text: bytes, r: bytes)
    requires 34 !in text && Utf8(text)
    ensures NameIn(FILE + (NAME_IS + (text + (QUOTE + r)))) == Some(text)
  {
    hide Find; hide NameIn; hide Utf8;
    NameIsLossy(FILE + (NAME_IS + (text + (QUOTE + r))));
    LossyIsSameIff(text);
    var h := FILE + (NAME_IS + (text + (QUOTE + r)));
    FoundAfterFile(NAME_IS + (text + (QUOTE + r)));
    assert h[4 + 6..] == text + (QUOTE + r);
    QuoteFound(text, r);
  }

  lemma FoundAfterFile(r: bytes)
    requires StartsWith(r, NAME_IS)
    ensures Find(FILE + r, NAME_IS) == Some(4)
  {
    hide Find;
    FoundHere(r, NAME_IS);
    SkipByte(101, r, NAME_IS);
    SkipByte(108, [101] + r, NAME_IS);
    SkipByte(105, [108] + ([101] + r), NAME_IS);
    SkipByte(102, [105] + ([108] + ([101] + r)), NAME_IS);
    assert [102, 105, 108, 101] + r == [102] + ([105] + ([108] + ([101] + r)));
  }

  // ---------- parts of a body ----------

  lemma NotAcross(a: bytes, rest: bytes, needle: bytes, i: nat)
    requires needle != [] && 13 !in needle && Free(a, needle) && rest != [] && rest[0] == 13
    requires i <= |a|
    ensures !At(a + rest, needle, i)
  {
    var (s, n) := (a + rest, |needle|);
    FindIsFirst(a, needle);
    if i + n <= |a| {
      assert s[i..i + n] == a[i..i + n];
      assert !At(a, needle, i);
    } else if i + n <= |s| {
      assert s[i..i + n][|a| - i] == rest[0];
      assert needle[|a| - i] in needle;
    }
  }

  // The delimiter is found after a stretch that is free of it and ends in a line break.
  lemma {:induction false} SkipFree(a: bytes, rest: bytes, needle: bytes)
    requires needle != [] && 13 !in needle && Free(a, needle) && rest != [] && rest[0] == 13
    ensures Find(a + rest, needle) == Shift(Find(rest, needle), |a|)
    decreases |a|
  {
    if a == [] {
      assert a + rest == rest;
    } else {
      var s := a + rest;
      NotAcross(a, rest, needle, 0);
      if |s| >= |needle| { assert s[0..|needle|] == s[..|needle|]; }
      assert s[1..] == a[1..] + rest;
      StillFree(a, needle);
      SkipFree(a[1..], rest, needle);
    }
  }

  lemma StillFree(a: bytes, needle: bytes)
    requires a != [] && needle != [] && Free(a, needle)
    ensures Free(a[1..], needle)
  {
  }

  lemma SkipCrlf(rest: bytes, needle: bytes)
    requires DelimiterOk(needle)
    ensures Find(CRLF + rest, needle) == Shift(Find(rest, needle), 2)
  {
    assert needle[0] == needle[..2][0] == 45;
    assert CRLF + rest == [13] + ([10] + rest);
    SkipByte(13, [10] + rest, needle);
    SkipByte(10, rest, needle);
  }

  // From the start of a part, the next delimiter is the one after it.
  lemma NextDelimiter(f: Field, rest: bytes, delimiter: bytes)
    requires DelimiterOk(delimiter) && FieldOk(f, delimiter) && StartsWith(rest, delimiter)
    ensures Find(PartBytes(f) + rest, delimiter) == Some(|PartBytes(f)|)
    ensures (PartBytes(f) + rest)[..|PartBytes(f)|] == PartBytes(f) && (PartBytes(f) + rest)[|PartBytes(f)|..] == rest
  {
    hide NameIn; hide Find;
    var r3 := CRLF + rest;
    var r2 := f.content + r3;
    var r1 := CRLF + (CRLF + r2);
    assert PartBytes(f) + rest == f.headers() + r1;
    FoundHere(rest, delimiter);
    SkipCrlf(rest, delimiter);
    SkipFree(f.content, r3, delimiter);
    SkipCrlf(r2, delimiter);
    SkipCrlf(CRLF + r2, delimiter);
    SkipFree(f.headers(), r1, delimiter);
  }

  // A well-formed part gives back its name and its content, byte for byte.
  lemma FieldReadBack(f: Field, delimiter: bytes)
    requires FieldOk(f, delimiter)
    ensures FieldOf(PartBytes(f)) == Some((KeyFor(f), f.content))
  {
    hide NameIn; hide KeyOf; hide HeaderBlock; hide Utf8; hide Find; hide NameFirst;
    NameOfBlock(f.prefix, f.name, f.suffix);
    var part := PartBytes(f);
    HeadersEnd(f);
    ThreePieces(f.headers(), BLANK, f.content + CRLF);
    assert (f.content + CRLF)[|f.content|..] == CRLF && (f.content + CRLF)[..|f.content|] == f.content;
  }

  lemma HeadersEnd(f: Field)
    requires Find(f.headers() + BLANK, BLANK) == Some(|f.headers()|)
    ensures Find(PartBytes(f), BLANK) == Some(|f.headers()|)
  {
    var (part, h) := (PartBytes(f), f.headers() + BLANK);
    assert part == h + (f.content + CRLF);
    FindIsFirst(h, BLANK);
    assert part[|f.headers()|..|f.headers()| + 4] == BLANK;
    forall i: nat | i < |f.headers()| ensures !At(part, BLANK, i) {
      assert part[i..i + 4] == h[i..i + 4];
      assert !At(h, BLANK, i);
    }
    FoundAt(part, BLANK, |f.headers()|);
  }

  lemma {:induction false} LayoutParts(fields: seq<Field>, delimiter: bytes)
    requires DelimiterOk(delimiter) && FieldsOk(fields, delimiter)
    ensures Parts(Layout(fields, delimiter), delimiter) == PartsOf(fields) + [DASHES + CRLF]
    ensures StartsWith(Layout(fields, delimiter), delimiter)
  {
    hide FieldOk; hide Find; hide PartBytes; hide Parts; hide DelimiterOk;
    StartsWithDelimiter(fields, delimiter);
    if fields == [] {
      ClosingParts(delimiter);
    } else {
      var rest := Layout(fields[1..], delimiter);
      LayoutParts(fields[1..], delimiter);
      FieldParts(fields[0], rest, delimiter);
      assert PartsOf(fields) + [DASHES + CRLF] == [PartBytes(fields[0])] + (PartsOf(fields[1..]) + [DASHES + CRLF]);
    }
  }

  lemma StartsWithDelimiter(fields: seq<Field>, delimiter: bytes)
    ensures StartsWith(Layout(fields, delimiter), delimiter)
  {
    hide PartBytes;
    if fields == [] { ThreePieces(delimiter, DASHES, CRLF); }
    else { ThreePieces(delimiter, CRLF, PartBytes(fields[0]) + Layout(fields[1..], delimiter)); }
  }

  lemma ClosingParts(delimiter: bytes)
    requires DelimiterOk(delimiter)
    ensures Parts(delimiter + (DASHES + CRLF), delimiter) == [DASHES + CRLF]
  {
    hide Find;
    var s := delimiter + (DASHES + CRLF);
    ThreePieces(delimiter, DASHES, CRLF);
    FoundHere(s, delimiter);
    assert DropCrlf(DASHES + CRLF) == DASHES + CRLF by { assert (DASHES + CRLF)[..2][0] == 45; }
    ClosingIsLast(delimiter);
  }

  lemma FieldParts(f: Field, rest: bytes, delimiter: bytes)
    requires DelimiterOk(delimiter) && FieldOk(f, delimiter) && StartsWith(rest, delimiter)
    ensures Parts(delimiter + (CRLF + (PartBytes(f) + rest)), delimiter) == [PartBytes(f)] + Parts(rest, delimiter)
  {
    hide FieldOk; hide Find; hide PartBytes;
    var body := PartBytes(f) + rest;
    var s := delimiter + (CRLF + body);
    ThreePieces(delimiter, CRLF, body);
    FoundHere(s, delimiter);
    assert (CRLF + body)[..2] == CRLF && (CRLF + body)[2..] == body;
    NextDelimiter(f, rest, delimiter);
  }

  function PartsOf(fields: seq<Field>): seq<bytes> {
    if fields == [] then [] else [PartBytes(fields[0])] + PartsOf(fields[1..])
  }

  lemma ClosingIsLast(delimiter: bytes)
    requires DelimiterOk(delimiter)
    ensures Find(DASHES + CRLF, delimiter).None?
  {
    var s := DASHES + CRLF;
    FindIsFirst(s, delimiter);
    forall i: nat | i <= |s| ensures !At(s, delimiter, i) {
      if i + |delimiter| <= |s| {
        assert s[i..i + |delimiter|][2 - i] == 13;
        assert delimiter[2 - i] in delimiter;
      }
    }
  }

  // ---------- main result ----------

  function KeyFor(f: Field): bytes {
    KeyOf(f.headers(), f.text(), f.content)
  }

  // A field named score is kept apart as a replay exactly when its header block has a filename= anywhere or
  // its content begins like a replay's compressed data; any other field goes by its name.
  lemma ReplayApart(f: Field)
    ensures f.text() != SCORE ==> KeyFor(f) == f.text()
    ensures f.text() == SCORE ==>
      KeyFor(f) ==
      if (exists i: nat :: At(f.headers(), FILENAME_IS, i)) ||
         (|f.content| >= 5 && f.content[..5] == [0x5D, 0, 0, 0x20, 0])
      then SCORE_REPLAY else SCORE
  {
    hide Lossy; hide Find; hide HeaderBlock;
    FindLossy(f.headers(), FILENAME_IS);
    FindIsFirst(f.headers(), FILENAME_IS);
    forall i: nat | At(f.headers(), FILENAME_IS, i) ensures Find(f.headers(), FILENAME_IS).Some? {
      assert i <= |f.headers()|;
    }
  }

  // The fields in order, a later one of the same key taking the place of an earlier.
  function Stored(fields: seq<Field>): map<bytes, bytes> {
    if fields == [] then map[] else
    var last := fields[|fields| - 1];
    Stored(fields[..|fields| - 1])[KeyFor(last) := last.content]
  }

  lemma {:induction false} PartsCollect(fields: seq<Field>, delimiter: bytes)
    requires FieldsOk(fields, delimiter)
    ensures Collected(PartsOf(fields)) == Stored(fields)
  {
    hide FieldOk; hide FieldOf; hide PartBytes; hide NameIn; hide KeyOf;
    if fields != [] {
      var (front, last) := (fields[..|fields| - 1], fields[|fields| - 1]);
      PartsCollect(front, delimiter);
      assert fields == front + [last];
      PartsOfOneMore(front, last);
      CollectedOneMore(PartsOf(front), PartBytes(last));
      FieldReadBack(last, delimiter);
    } else {
      NothingCollected();
    }
  }

  lemma {:induction false} PartsOfOneMore(front: seq<Field>, last: Field)
    ensures PartsOf(front + [last]) == PartsOf(front) + [PartBytes(last)]
  {
    hide PartBytes;
    if front != [] {
      assert (front + [last])[1..] == front[1..] + [last];
      PartsOfOneMore(front[1..], last);
    } else {
      assert (front + [last])[1..] == [];
    }
  }

  lemma ClosingHasNoField()
    ensures FieldOf(DASHES + CRLF).None?
  {
    assert |DASHES + CRLF| == 4;
    assert (DASHES + CRLF)[..4][0] == 45;
  }

  // A body laid out by the standard is read back as exactly its fields.
  lemma LayoutReadBack(fields: seq<Field>, delimiter: bytes)
    requires DelimiterOk(delimiter) && FieldsOk(fields, delimiter)
    ensures Collected(Parts(Layout(fields, delimiter), delimiter)) == Stored(fields)
  {
    hide FieldOk; hide FieldOf; hide Layout; hide Collected; hide Parts;
    LayoutParts(fields, delimiter);
    CollectedOneMore(PartsOf(fields), DASHES + CRLF);
    ClosingHasNoField();
    PartsCollect(fields, delimiter);
  }

  // Names all different as texts and none of them the score field.
  predicate Distinct(fields: seq<Field>) {
    && (forall f :: f in fields ==> f.text() != SCORE)
    && (forall i, j :: 0 <= i < j < |fields| ==> fields[i].text() != fields[j].text())
  }

  // The last field of such a list has a name of its own.
  lemma LastIsNew(front: seq<Field>, last: Field)
    requires Distinct(front + [last])
    ensures Distinct(front) && KeyFor(last) == last.text() && forall f :: f in front ==> f.text() != last.text()
  {
    var fields := front + [last];
    assert last in fields;
    forall f | f in front ensures f in fields && f.text() != last.text() {
      var i :| 0 <= i < |front| && front[i] == f;
      assert fields[i] == f && fields[|front|] == last;
    }
    forall i, j | 0 <= i < j < |front| ensures front[i].text() != front[j].text() {
      assert fields[i] == front[i] && fields[j] == front[j];
    }
  }

  lemma StoredOneMore(front: seq<Field>, last: Field)
    ensures Stored(front + [last]) == Stored(front)[KeyFor(last) := last.content]
  {
    assert (front + [last])[..|front|] == front;
  }

  // Every name then leads to its own content and there is nothing else.
  lemma {:induction false} DistinctStored(fields: seq<Field>)
    requires Distinct(fields)
    ensures forall f :: f in fields ==> f.text() in Stored(fields) && Stored(fields)[f.text()] == f.content
    ensures forall k :: k in Stored(fields) ==> exists f :: f in fields && f.text() == k
    ensures |Stored(fields)| == |fields|
  {
    hide Distinct; hide Stored; hide KeyFor;
    if fields == [] {
      NothingStored();
    } else {
      var (front, last) := (fields[..|fields| - 1], fields[|fields| - 1]);
      assert fields == front + [last];
      LastIsNew(front, last);
      DistinctStored(front);
      StoredOneMore(front, last);
      assert KeyFor(last) !in Stored(front);
    }
  }

  lemma NothingStored()
    ensures Stored([]) == map[]
  {
  }

  // A body of fields with different names, none of them score, is read back as exactly those names, each
  // with its own raw content; a name in UTF-8 as it is, and any other as the text it is converted to.
  lemma DistinctFieldsReadBack(fields: seq<Field>, delimiter: bytes)
    requires DelimiterOk(delimiter) && FieldsOk(fields, delimiter) && Distinct(fields)
    ensures var read := Collected(Parts(Layout(fields, delimiter), delimiter));
      && (forall f :: f in fields ==> f.text() in read && read[f.text()] == f.content)
      && (forall k :: k in read ==> exists f :: f in fields && f.text() == k) && |read| == |fields|
  {
    hide DelimiterOk; hide FieldsOk; hide Distinct; hide Collected; hide Parts; hide Layout; hide Stored;
    LayoutReadBack(fields, delimiter);
    DistinctStored(fields);
  }
}
