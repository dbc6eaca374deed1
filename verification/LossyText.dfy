/** Text read from bytes that may not be UTF-8: String::from_utf8_lossy, and what it keeps of searches for
    ASCII. Search.Find is the search. */
module LossyText {
  import opened Wrappers
  import opened BanchoTypes
  import opened Wire
  import opened Search

  const REPLACEMENT: bytes := [0xEF, 0xBF, 0xBD]                          // U+FFFD

  // The second byte of a character of three or four bytes (table 3-7 of the Unicode Standard).
  predicate SecondOk(first: u8, second: u8) {
    && Trailing(second)
    && (first == 0xE0 ==> second >= 0xA0) && (first == 0xED ==> second < 0xA0)
    && (first == 0xF0 ==> second >= 0x90) && (first == 0xF4 ==> second < 0x90)
  }

  // How many bytes one replacement character stands for: the longest start of a character, or one byte.
  function BadLength(s: bytes): (n: nat)
    requires s != []
    ensures 1 <= n <= |s|
  {
    if |s| >= 2 && 0xE0 <= s[0] < 0xF5 && SecondOk(s[0], s[1])
    then if |s| >= 3 && s[0] >= 0xF0 && Trailing(s[2]) then 3 else 2
    else 1
  }

  // How many bytes are taken together at the front.
  function ChunkLength(s: bytes): (n: nat)
    requires s != []
    ensures 1 <= n <= |s|
  {
    if CharLength(s) > 0 then CharLength(s) else BadLength(s)
  }

  // What they become.
  function ChunkText(s: bytes): bytes
    requires s != []
  {
    if CharLength(s) > 0 then s[..CharLength(s)] else REPLACEMENT
  }

  // String::from_utf8_lossy
  function Lossy(s: bytes): bytes {
    if s == [] then [] else ChunkText(s) + Lossy(s[ChunkLength(s)..])
  }

  // Exactly well-formed text comes out as it is.
  lemma {:induction false} LossyIsSameIff(s: bytes)
    ensures Lossy(s) == s <==> Utf8(s)
  {
    if s != [] {
      var n := ChunkLength(s);
      LossyIsSameIff(s[n..]);
      if CharLength(s) > 0 {
        assert s == s[..n] + s[n..];
        if Lossy(s) == s { assert Lossy(s)[n..] == Lossy(s[n..]) && s[n..] == Lossy(s[n..]); }
      } else {
        assert Lossy(s)[0] == 0xEF && Lossy(s)[1] == 0xBF && Lossy(s)[2] == 0xBD;
      }
    }
  }

  predicate Ascii7(s: bytes) {
    forall b :: b in s ==> b < 128
  }

  // No character reaches across an ASCII byte.
  lemma ChunkBeforeAscii(a: bytes, b: bytes)
    requires a != [] && (b == [] || b[0] < 128)
    ensures ChunkLength(a + b) == ChunkLength(a) && ChunkText(a + b) == ChunkText(a)
  {
    var s := a + b;
    assert forall i :: 0 <= i < |a| ==> s[i] == a[i];
    assert |a| < |s| ==> s[|a|] == b[0];
    assert CharLength(s) == CharLength(a);
    assert s[..CharLength(a)] == a[..CharLength(a)];
  }

  lemma {:induction false} LossyBeforeAscii(a: bytes, b: bytes)
    requires b == [] || b[0] < 128
    ensures Lossy(a + b) == Lossy(a) + Lossy(b)
    decreases |a|
  {
    hide ChunkLength; hide ChunkText;
    if a == [] {
      assert a + b == b;
    } else {
      var n := ChunkLength(a);
      ChunkBeforeAscii(a, b);
      assert (a + b)[n..] == a[n..] + b;
      LossyBeforeAscii(a[n..], b);
    }
  }

  lemma {:induction false} LossyAfterAscii(a: bytes, b: bytes)
    requires Ascii7(a)
    ensures Lossy(a + b) == a + Lossy(b)
  {
    hide Lossy;
    if a == [] {
      assert a + b == b;
    } else {
      assert a + b == [a[0]] + (a[1..] + b);
      assert a[0] in a && forall x :: x in a[1..] ==> x in a;
      LossyAfterOne(a[0], a[1..] + b);
      LossyAfterAscii(a[1..], b);
    }
  }

  lemma LossyAfterOne(c: u8, b: bytes)
    requires c < 128
    ensures Lossy([c] + b) == [c] + Lossy(b)
  {
    hide ChunkLength; hide ChunkText;
    AsciiChunk([c] + b);
    assert ([c] + b)[1..] == b;
  }

  // A chunk that does not begin with an ASCII byte holds none, before and after.
  lemma HighChunk(s: bytes)
    requires s != [] && s[0] >= 128
    ensures forall b :: b in s[..ChunkLength(s)] ==> b >= 128
    ensures ChunkText(s) != [] && forall b :: b in ChunkText(s) ==> b >= 128
  {
  }

  lemma {:induction false} SkipHigh(a: bytes, rest: bytes, needle: bytes)
    requires needle != [] && needle[0] < 128 && forall b :: b in a ==> b >= 128
    ensures Find(a + rest, needle) == Shift(Find(rest, needle), |a|)
  {
    if a == [] {
      assert a + rest == rest;
    } else {
      assert a + rest == [a[0]] + (a[1..] + rest);
      assert a[0] in a && forall b :: b in a[1..] ==> b in a;
      SkipByte(a[0], a[1..] + rest, needle);
      SkipHigh(a[1..], rest, needle);
    }
  }

  lemma {:induction false} StartsAlike(s: bytes, front: bytes)
    requires Ascii7(front)
    ensures StartsWith(Lossy(s), front) <==> StartsWith(s, front)
    decreases |front|
  {
    hide ChunkLength; hide ChunkText;
    if front != [] && s != [] {
      assert front[0] in front && forall b :: b in front[1..] ==> b in front;
      if s[0] < 128 {
        assert s == [s[0]] + s[1..];
        LossyAfterAscii([s[0]], s[1..]);
        StartsAlike(s[1..], front[1..]);
        StartsOneFurther(s, front);
        StartsOneFurther(Lossy(s), front);
      } else {
        HighChunk(s);
        assert Lossy(s)[0] == ChunkText(s)[0] && ChunkText(s)[0] in ChunkText(s);
        StartsOneFurther(s, front);
        StartsOneFurther(Lossy(s), front);
      }
    }
  }

  lemma StartsOneFurther(s: bytes, front: bytes)
    requires s != [] && front != []
    ensures StartsWith(s, front) <==> s[0] == front[0] && StartsWith(s[1..], front[1..])
  {
    if |front| <= |s| {
      assert s[..|front|] == [s[0]] + s[1..][..|front| - 1];
      assert front == [front[0]] + front[1..];
    }
  }

  // An ASCII text is found in the converted bytes where it is first found in the bytes themselves.
  lemma {:induction false} FindLossy(s: bytes, needle: bytes)
    requires needle != [] && Ascii7(needle)
    ensures Find(s, needle).None? ==> Find(Lossy(s), needle).None?
    ensures Find(s, needle).Some? ==>
      Find(Lossy(s), needle) == Some(|Lossy(s[..Find(s, needle).value])|)
    decreases |s|
  {
    hide ChunkLength; hide ChunkText; hide Find; hide Lossy; hide StartsWith;
    assert needle[0] in needle;
    StartsAlike(s, needle);
    if s != [] && !StartsWith(s, needle) {
      FindLossy(s[ChunkLength(s)..], needle);
      FindPastChunk(s, needle);
      if Find(s, needle).Some? { ChunkOfFront(s, needle); }
    } else {
      FoundAtFront(s, needle);
      FoundAtFront(Lossy(s), needle);
      assert s[..0] == [];
      NothingLossy();
    }
  }

  lemma NothingLossy()
    ensures Lossy([]) == []
  {
  }

  lemma FoundAtFront(s: bytes, needle: bytes)
    requires needle != []
    ensures StartsWith(s, needle) ==> Find(s, needle) == Some(0)
    ensures s == [] ==> Find(s, needle) == None
  {
  }

  // What stands before the first place of an ASCII text begins with the same chunk.
  lemma ChunkOfFront(s: bytes, needle: bytes)
    requires s != [] && needle != [] && Ascii7(needle) && Find(s, needle).Some?
    requires Find(s, needle) == Shift(Find(s[ChunkLength(s)..], needle), ChunkLength(s))
    ensures var (i, n) := (Find(s, needle).value, ChunkLength(s));
      i >= n && Lossy(s[..i]) == ChunkText(s) + Lossy(s[n..][..i - n])
  {
    hide ChunkLength; hide ChunkText; hide Find;
    var (i, n) := (Find(s, needle).value, ChunkLength(s));
    FindIsFirst(s, needle);
    assert s[i..][0] == s[i..i + |needle|][0] == needle[0] && needle[0] in needle;
    assert s == s[..i] + s[i..];
    ChunkBeforeAscii(s[..i], s[i..]);
    assert s[..i][n..] == s[n..][..i - n];
  }

  lemma AsciiChunk(s: bytes)
    requires s != [] && s[0] < 128
    ensures ChunkLength(s) == 1 && ChunkText(s) == [s[0]]
  {
  }

  // Neither the chunk at the front nor what it becomes holds the beginning of the needle.
  lemma FindPastChunk(s: bytes, needle: bytes)
    requires s != [] && needle != [] && Ascii7(needle) && !StartsWith(s, needle)
    ensures var n := ChunkLength(s);
      && Find(s, needle) == Shift(Find(s[n..], needle), n)
      && Find(Lossy(s), needle) == Shift(Find(Lossy(s[n..]), needle), |ChunkText(s)|)
  {
    hide ChunkLength; hide ChunkText; hide Find; hide StartsWith;
    assert needle[0] in needle;
    var n := ChunkLength(s);
    StartsAlike(s, needle);
    if s[0] < 128 {
      AsciiChunk(s);
      FindOneFurther(s, needle);
      FindOneFurther(Lossy(s), needle);
      assert Lossy(s)[1..] == Lossy(s[1..]);
    } else {
      HighChunk(s);
      assert s == s[..n] + s[n..];
      SkipHigh(s[..n], s[n..], needle);
      SkipHigh(ChunkText(s), Lossy(s[n..]), needle);
    }
  }

  // The bytes from an ASCII text on are converted by themselves.
  lemma LossyFromFound(s: bytes, needle: bytes, i: nat)
    requires needle != [] && Ascii7(needle) && At(s, needle, i)
    ensures var (before, after) := (s[..i], s[i + |needle|..]);
      Lossy(s) == Lossy(before) + (needle + Lossy(after))
  {
    assert s[i..] == needle + s[i + |needle|..];
    assert s[i..][0] == needle[0] && needle[0] in needle;
    assert s == s[..i] + s[i..];
    LossyBeforeAscii(s[..i], s[i..]);
    LossyAfterAscii(needle, s[i + |needle|..]);
  }
}
