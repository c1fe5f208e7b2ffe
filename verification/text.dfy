/** UTF-8 as byte sequences: section 3 of RFC 3629. */
module Utf8 {

  type Byte = b: nat | b < 256

  predicate IsContinuation(b: Byte) {
    0x80 <= b < 0xC0
  }

  predicate Tail(s: seq<Byte>, i: nat) {
    i < |s| && IsContinuation(s[i])
  }

  /** Length of the well-formed character a byte sequence starts with; 0 if there is none. */
  function FirstChar(s: seq<Byte>): (n: nat)
    ensures n <= |s| && n <= 4
  {
    if s == [] then 0
    else if s[0] < 0x80 then 1
    else if 0xC2 <= s[0] < 0xE0 then if Tail(s, 1) then 2 else 0
    else if 0xE0 <= s[0] < 0xF0 then
      if Tail(s, 1) && Tail(s, 2) && (s[0] == 0xE0 ==> s[1] >= 0xA0) && (s[0] == 0xED ==> s[1] < 0xA0) then 3 else 0
    else if 0xF0 <= s[0] < 0xF5 then
      if Tail(s, 1) && Tail(s, 2) && Tail(s, 3) && (s[0] == 0xF0 ==> s[1] >= 0x90) && (s[0] == 0xF4 ==> s[1] < 0x90) then 4
      else 0
    else 0
  }

  predicate Valid(s: seq<Byte>)
    decreases |s|
  {
    s == [] || (FirstChar(s) > 0 && Valid(s[FirstChar(s)..]))
  }

  /** Rust's `is_char_boundary`: an end of the text, or a byte that does not continue a character. */
  predicate IsCharBoundary(s: seq<Byte>, i: nat) {
    i == 0 || i == |s| || (i < |s| && !IsContinuation(s[i]))
  }

  /** The first character is that of every prefix that holds it, and only continuation bytes follow its first. */
  lemma FirstCharOfPrefix(s: seq<Byte>, i: nat)
    requires i <= |s| && FirstChar(s) > 0
    ensures FirstChar(s) <= i ==> FirstChar(s[..i]) == FirstChar(s)
    ensures 0 < i < FirstChar(s) ==> !IsCharBoundary(s, i)
  {
    var p, n := s[..i], FirstChar(s);
    if n <= i {
      forall k: nat | k < n ensures p[k] == s[k] {}
      assert p[0] == s[0];
      assert n > 1 ==> Tail(p, 1) && p[1] == s[1];
      assert n > 2 ==> Tail(p, 2);
      assert n > 3 ==> Tail(p, 3);
    }
  }

  /** Valid text cut at a boundary is valid on both sides. */
  lemma {:induction false} CutAtBoundary(s: seq<Byte>, i: nat)
    requires Valid(s) && i <= |s| && IsCharBoundary(s, i)
    ensures Valid(s[..i]) && Valid(s[i..])
    decreases |s|
  {
    if s == [] || i == 0 {
      assert s[..i] == [] && s[i..] == s;
    } else {
      var n := FirstChar(s);
      FirstCharOfPrefix(s, i);
      var rest := s[n..];
      assert i == n || (i < |s| ==> rest[i - n] == s[i]);
      CutAtBoundary(rest, i - n);
      assert rest[i - n..] == s[i..];
      assert s[..i][n..] == rest[..i - n];
    }
  }

  lemma SliceAtBoundaries(s: seq<Byte>, a: nat, b: nat)
    requires Valid(s) && a <= b <= |s| && IsCharBoundary(s, a) && IsCharBoundary(s, b)
    ensures Valid(s[a..b])
  {
    CutAtBoundary(s, b);
    assert s[..b][a..] == s[a..b];
    assert a < b ==> s[..b][a] == s[a];
    CutAtBoundary(s[..b], a);
  }
}

/**
 Commit ids as Lance tag names (src/layeridx/mod.rs). Lance allows few
 characters in a tag; the encoding stays inside them and is reversible.
 */
module CommitTag {
  import opened Outcomes
  import opened Utf8

  datatype DecodeError =
    | MissingPrefix
    | TruncatedEscape(at: nat)
    | TruncatedHex(at: nat)
    | HexNotUtf8(at: nat)
    | InvalidHex(at: nat)
    | NotUtf8

  const DASH: Byte := 45
  const PLUS: Byte := 43
  const UNDERSCORE: Byte := 95
  const PREFIX: seq<Byte> := [99, 95]

  predicate IsDigit(b: Byte) { 48 <= b <= 57 }

  predicate IsAlphanumeric(b: Byte) {
    IsDigit(b) || 65 <= b <= 90 || 97 <= b <= 122
  }

  /** The lower-case hex digit of a nibble. */
  function HexDigit(n: nat): Byte
    requires n < 16
  {
    if n < 10 then 48 + n else 87 + n
  }

  function EncodedByte(b: Byte): seq<Byte> {
    if b == DASH then [DASH, DASH]
    else if IsAlphanumeric(b) || b == UNDERSCORE then [b]
    else [DASH, HexDigit(b / 16), HexDigit(b % 16)]
  }

  function EncodedBody(s: seq<Byte>): seq<Byte> {
    if s == [] then [] else EncodedByte(s[0]) + EncodedBody(s[1..])
  }

  function Encoded(s: seq<Byte>): seq<Byte> {
    PREFIX + EncodedBody(s)
  }

  function Joined(pieces: seq<seq<Byte>>): seq<Byte> {
    if pieces == [] then [] else Joined(pieces[..|pieces| - 1]) + pieces[|pieces| - 1]
  }

  lemma JoinedNext(pieces: seq<seq<Byte>>, piece: seq<Byte>)
    ensures Joined(pieces + [piece]) == Joined(pieces) + piece
    ensures [99, 95] + Joined(pieces + [piece]) == [99, 95] + Joined(pieces) + piece
  {
    assert (pieces + [piece])[..|pieces|] == pieces;
  }

  lemma PieceMeans(b: Byte)
    ensures PieceOf(b, EncodedByte(b))
  {
  }

  /** How a byte is written. */
  predicate PieceOf(b: Byte, piece: seq<Byte>) {
    if b == 45 then piece == [45, 45]
    else if 48 <= b <= 57 || 65 <= b <= 90 || b == 95 || 97 <= b <= 122 then piece == [b]
    else
      && |piece| == 3 && piece[0] == 45
      && (48 <= piece[1] <= 57 || 97 <= piece[1] <= 102) && (48 <= piece[2] <= 57 || 97 <= piece[2] <= 102)
      && b == 16 * (if piece[1] <= 57 then piece[1] - 48 else piece[1] - 87) + (if piece[2] <= 57 then piece[2] - 48 else piece[2] - 87)
  }

  lemma {:induction false} EncodedBodySnoc(s: seq<Byte>, b: Byte)
    ensures EncodedBody(s + [b]) == EncodedBody(s) + EncodedByte(b)
  {
    if s == [] {
      assert (s + [b])[1..] == [];
      assert EncodedBody([]) == [];
    } else {
      assert (s + [b])[1..] == s[1..] + [b];
      EncodedBodySnoc(s[1..], b);
    }
  }

  /**
     The tag is `c_` and one piece for each byte of the commit, in order: a
     letter, digit or underscore as it is, a dash doubled, and any other byte as
     a dash and two lower-case hex digits.
     */
  method EncodeCommitTag(commit: seq<Byte>) returns (tag: seq<Byte>, ghost pieces: seq<seq<Byte>>)
    ensures tag == Encoded(commit)
    ensures |pieces| == |commit| && forall i :: 0 <= i < |commit| ==> PieceOf(commit[i], pieces[i])
    ensures tag == [99, 95] + Joined(pieces)
  {
    tag := PREFIX;
    pieces := [];
    for i := 0 to |commit|
      invariant Written(commit[..i], tag, pieces)
    {
      WriteNext(commit[..i], commit[i], tag, pieces);
      assert commit[..i + 1] == commit[..i] + [commit[i]];
      tag := AppendEncoded(tag, commit[i]);
      pieces := pieces + [EncodedByte(commit[i])];
    }
    assert commit[..|commit|] == commit;
  }

  /** The tag of these bytes, piece by piece. */
  ghost predicate Written(s: seq<Byte>, tag: seq<Byte>, pieces: seq<seq<Byte>>) {
    && tag == Encoded(s) && tag == [99, 95] + Joined(pieces)
    && |pieces| == |s| && forall i :: 0 <= i < |s| ==> PieceOf(s[i], pieces[i])
  }

  lemma WriteNext(s: seq<Byte>, b: Byte, tag: seq<Byte>, pieces: seq<seq<Byte>>)
    requires Written(s, tag, pieces)
    ensures Written(s + [b], tag + EncodedByte(b), pieces + [EncodedByte(b)])
  {
    EncodedBodySnoc(s, b);
    PieceMeans(b);
    JoinedNext(pieces, EncodedByte(b));
  }

  method AppendEncoded(tag: seq<Byte>, b: Byte) returns (longer: seq<Byte>)
    ensures longer == tag + EncodedByte(b)
  {
    if b == DASH {
      longer := tag + [DASH, DASH];
    } else if IsAlphanumeric(b) || b == UNDERSCORE {
      longer := tag + [b];
    } else {
      longer := tag + [DASH, HexDigit(b / 16), HexDigit(b % 16)];
    }
  }

  function HexValue(b: Byte): Option<nat> {
    if IsDigit(b) then Some(b - 48)
    else if 97 <= b <= 102 then Some(b - 87)
    else if 65 <= b <= 70 then Some(b - 55)
    else None
  }

  /** `u8::from_str_radix(_, 16)` on two characters: either case, and a leading plus sign is skipped. */
  function ParseHex(a: Byte, b: Byte): Option<nat> {
    match HexValue(b)
    case None => None
    case Some(low) =>
      if a == PLUS then Some(low)
      else match HexValue(a) case None => None case Some(high) => Some(16 * high + low)
  }

  function Prepended(out: seq<Byte>, r: Result<seq<Byte>, DecodeError>): Result<seq<Byte>, DecodeError> {
    match r case Ok(v) => Ok(out + v) case Err(e) => Err(e)
  }

  /** The bytes the body encodes from position i on, before the UTF-8 check. */
  function DecodedFrom(bytes: seq<Byte>, i: nat): Result<seq<Byte>, DecodeError>
    decreases |bytes| - i
  {
    if i >= |bytes| then Ok([])
    else if bytes[i] != DASH then Prepended([bytes[i]], DecodedFrom(bytes, i + 1))
    else if i + 1 >= |bytes| then Err(TruncatedEscape(i))
    else if bytes[i + 1] == DASH then Prepended([DASH], DecodedFrom(bytes, i + 2))
    else if i + 2 >= |bytes| then Err(TruncatedHex(i))
    else if !Valid([bytes[i + 1], bytes[i + 2]]) then Err(HexNotUtf8(i))
    else
      match ParseHex(bytes[i + 1], bytes[i + 2])
      case None => Err(InvalidHex(i))
      case Some(v) => if v < 256 then Prepended([v], DecodedFrom(bytes, i + 3)) else Err(InvalidHex(i))
  }

  function Decoded(tag: seq<Byte>): Result<seq<Byte>, DecodeError> {
    if !(PREFIX <= tag) then Err(MissingPrefix)
    else
      match DecodedFrom(tag[2..], 0)
      case Err(e) => Err(e)
      case Ok(out) => if Valid(out) then Ok(out) else Err(NotUtf8)
  }

  lemma PrependedTwice(a: seq<Byte>, b: seq<Byte>, r: Result<seq<Byte>, DecodeError>)
    ensures Prepended(a, Prepended(b, r)) == Prepended(a + b, r)
  {
    if r.Ok? { assert a + (b + r.value) == (a + b) + r.value; }
  }

  predicate IsHex(b: Byte) {
    48 <= b <= 57 || 65 <= b <= 70 || 97 <= b <= 102
  }

  function HexOf(b: Byte): nat
    requires IsHex(b)
  {
    if b <= 57 then b - 48 else if b <= 70 then b - 55 else b - 87
  }

  /** What one byte is read from: itself, two dashes, or a dash and two hex digits of either case, the first of which may be a plus sign. */
  predicate ReadFrom(b: Byte, item: seq<Byte>) {
    || (item == [b] && b != 45)
    || (item == [45, 45] && b == 45)
    || (|item| == 3 && item[0] == 45 && item[1] != 45 && IsHex(item[2])
        && (item[1] == 43 || IsHex(item[1])) && b == (if item[1] == 43 then 0 else 16 * HexOf(item[1])) + HexOf(item[2]))
  }

  /** Why no byte can be read from `rest`, which starts at that position. */
  predicate Unreadable(rest: seq<Byte>, at: nat, e: DecodeError) {
    && rest != [] && rest[0] == 45
    && match e
       case TruncatedEscape(p) => p == at && |rest| == 1
       case TruncatedHex(p) => p == at && |rest| == 2 && rest[1] != 45
       case HexNotUtf8(p) => p == at && |rest| > 2 && rest[1] != 45 && !Valid([rest[1], rest[2]])
       case InvalidHex(p) =>
         p == at && |rest| > 2 && rest[1] != 45 && Valid([rest[1], rest[2]]) && !(IsHex(rest[2]) && (rest[1] == 43 || IsHex(rest[1])))
       case _ => false
  }

  /**
     A tag is read item by item behind its prefix. It is the bytes read if that
     goes through and they are UTF-8; else the error says what is wrong and where.
     */
  method DecodeCommitTag(tag: seq<Byte>) returns (commit: Result<seq<Byte>, DecodeError>, ghost items: seq<seq<Byte>>, ghost read: seq<Byte>)
    ensures commit == Decoded(tag)
    ensures commit == Err(MissingPrefix) <==> |tag| < 2 || tag[..2] != [99, 95]
    ensures commit != Err(MissingPrefix) ==>
              && |items| == |read| && (forall i :: 0 <= i < |items| ==> ReadFrom(read[i], items[i]))
              && |Joined(items)| <= |tag| - 2 && tag[2..2 + |Joined(items)|] == Joined(items)
    ensures commit != Err(MissingPrefix) ==>
              if Joined(items) == tag[2..] then commit == (if Valid(read) then Ok(read) else Err(NotUtf8))
              else commit.Err? && Unreadable(tag[2 + |Joined(items)|..], |Joined(items)|, commit.error)
  {
    items, read := [], [];
    if !(PREFIX <= tag) {
      return Err(MissingPrefix), items, read;
    }
    var bytes := tag[2..];
    commit, items, read := DecodeBody(bytes);
    assert tag[2..2 + |Joined(items)|] == bytes[..|Joined(items)|];
    assert tag[2 + |Joined(items)|..] == bytes[|Joined(items)|..];
  }

  /** Reading the item at position i. */
  lemma ItemRead(items: seq<seq<Byte>>, bytes: seq<Byte>, i: nat, n: nat)
    requires i + n <= |bytes| && bytes[..i] == Joined(items)
    ensures Joined(items + [bytes[i..i + n]]) == bytes[..i + n]
  {
    JoinedNext(items, bytes[i..i + n]);
    assert bytes[..i + n] == bytes[..i] + bytes[i..i + n];
  }

  lemma HexMeans(a: Byte, b: Byte)
    ensures ParseHex(a, b).Some? <==> IsHex(b) && (a == 43 || IsHex(a))
    ensures ParseHex(a, b).Some? ==> ParseHex(a, b).value == (if a == 43 then 0 else 16 * HexOf(a)) + HexOf(b) < 256
  {
  }

  /** One round of the decoding loop: the byte that starts at position i and the length of what it is read from. */
  method ReadItem(bytes: seq<Byte>, i: nat) returns (r: Result<(Byte, nat), DecodeError>)
    requires i < |bytes|
    ensures r.Err? ==> DecodedFrom(bytes, i) == Err(r.error) && Unreadable(bytes[i..], i, r.error)
    ensures r.Ok? ==>
              var (b, n) := r.value;
              && n > 0 && i + n <= |bytes| && ReadFrom(b, bytes[i..i + n])
              && DecodedFrom(bytes, i) == Prepended([b], DecodedFrom(bytes, i + n))
  {
    if bytes[i] != DASH {
      return Ok((bytes[i], 1));
    }
    if i + 1 >= |bytes| {
      return Err(TruncatedEscape(i));
    }
    if bytes[i + 1] == DASH {
      return Ok((DASH, 2));
    }
    if i + 2 >= |bytes| {
      return Err(TruncatedHex(i));
    }
    if !Valid([bytes[i + 1], bytes[i + 2]]) {
      return Err(HexNotUtf8(i));
    }
    var v := ParseHex(bytes[i + 1], bytes[i + 2]);
    HexMeans(bytes[i + 1], bytes[i + 2]);
    if v.None? || v.value >= 256 {
      return Err(InvalidHex(i));
    }
    r := Ok((v.value, 3));
  }

  method DecodeBody(bytes: seq<Byte>) returns (commit: Result<seq<Byte>, DecodeError>, ghost items: seq<seq<Byte>>, ghost read: seq<Byte>)
    ensures commit == (match DecodedFrom(bytes, 0)
                       case Err(e) => Err(e)
                       case Ok(v) => if Valid(v) then Ok(v) else Err(NotUtf8))
    ensures |items| == |read| && (forall i :: 0 <= i < |items| ==> ReadFrom(read[i], items[i]))
    ensures Joined(items) <= bytes
    ensures if Joined(items) == bytes then commit == (if Valid(read) then Ok(read) else Err(NotUtf8))
            else commit.Err? && Unreadable(bytes[|Joined(items)|..], |Joined(items)|, commit.error)
  {
    items := [];
    var out: seq<Byte> := [];
    var i := 0;
    ReadNothing(bytes);
    while i < |bytes|
      invariant 0 <= i <= |bytes| && ReadTo(bytes, i, out, items)
    {
      var next := ReadItem(bytes, i);
      if next.Err? {
        StopsAt(bytes, i, out, items, next.error);
        return Err(next.error), items, out;
      }
      var (b, n) := next.value;
      ReadNext(bytes, i, out, items, n, b);
      items := items + [bytes[i..i + n]];
      out := out + [b];
      i := i + n;
    }
    assert out + [] == out && bytes[..|bytes|] == bytes;
    commit := if Valid(out) then Ok(out) else Err(NotUtf8);
    read := out;
  }

  /** The first i bytes have been read, item by item. */
  ghost predicate ReadTo(bytes: seq<Byte>, i: nat, out: seq<Byte>, items: seq<seq<Byte>>)
    requires i <= |bytes|
  {
    && Prepended(out, DecodedFrom(bytes, i)) == DecodedFrom(bytes, 0)
    && Joined(items) == bytes[..i]
    && |items| == |out| && forall j :: 0 <= j < |items| ==> ReadFrom(out[j], items[j])
  }

  /** An item that cannot be read ends the decoding with its error. */
  lemma StopsAt(bytes: seq<Byte>, i: nat, out: seq<Byte>, items: seq<seq<Byte>>, e: DecodeError)
    requires i < |bytes| && ReadTo(bytes, i, out, items) && DecodedFrom(bytes, i) == Err(e) && Unreadable(bytes[i..], i, e)
    ensures DecodedFrom(bytes, 0) == Err(e)
    ensures Joined(items) <= bytes && Joined(items) != bytes && Unreadable(bytes[|Joined(items)|..], |Joined(items)|, e)
  {
  }

  lemma ReadNothing(bytes: seq<Byte>)
    ensures ReadTo(bytes, 0, [], [])
  {
    if DecodedFrom(bytes, 0).Ok? {
      assert [] + DecodedFrom(bytes, 0).value == DecodedFrom(bytes, 0).value;
    }
  }

  lemma ReadNext(bytes: seq<Byte>, i: nat, out: seq<Byte>, items: seq<seq<Byte>>, n: nat, v: Byte)
    requires i + n <= |bytes| && ReadTo(bytes, i, out, items)
    requires DecodedFrom(bytes, i) == Prepended([v], DecodedFrom(bytes, i + n)) && ReadFrom(v, bytes[i..i + n])
    ensures ReadTo(bytes, i + n, out + [v], items + [bytes[i..i + n]])
  {
    PrependedTwice(out, [v], DecodedFrom(bytes, i + n));
    ItemRead(items, bytes, i, n);
  }

  // ── Round trip, injectivity, alphabet ──────────────────────────────────────

  lemma HexRoundTrip(b: Byte)
    ensures var h, l := HexDigit(b / 16), HexDigit(b % 16);
            ParseHex(h, l) == Some(b) && h != DASH && Valid([h, l])
  {
    var h, l := HexDigit(b / 16), HexDigit(b % 16);
    assert [h, l][1..] == [l] && [l][1..] == [];
  }

  lemma {:induction false} DecodeShift(bytes: seq<Byte>, head: seq<Byte>, i: nat)
    requires i <= |bytes|
    ensures match DecodedFrom(bytes, i)
            case Ok(v) => DecodedFrom(head + bytes, |head| + i) == Ok(v)
            case Err(_) => DecodedFrom(head + bytes, |head| + i).Err?
    decreases |bytes| - i
  {
    var all, n := head + bytes, |head|;
    if i < |bytes| {
      assert all[n + i] == bytes[i];
      if bytes[i] != DASH {
        DecodeShift(bytes, head, i + 1);
      } else if i + 1 < |bytes| {
        assert all[n + i + 1] == bytes[i + 1];
        if bytes[i + 1] == DASH {
          DecodeShift(bytes, head, i + 2);
        } else if i + 2 < |bytes| {
          assert all[n + i + 2] == bytes[i + 2];
          DecodeShift(bytes, head, i + 3);
        }
      }
    }
  }

  lemma {:induction false} DecodesBody(s: seq<Byte>)
    ensures DecodedFrom(EncodedBody(s), 0) == Ok(s)
  {
    if s != [] {
      var b, rest := s[0], EncodedBody(s[1..]);
      DecodesBody(s[1..]);
      DecodeShift(rest, EncodedByte(b), 0);
      HexRoundTrip(b);
      assert EncodedBody(s) == EncodedByte(b) + rest;
      assert [b] + s[1..] == s;
    }
  }

  /** Decoding an encoded commit returns the commit, for every valid string. */
  lemma RoundTrip(commit: seq<Byte>)
    requires Valid(commit)
    ensures Decoded(Encoded(commit)) == Ok(commit)
  {
    DecodesBody(commit);
    assert Encoded(commit)[2..] == EncodedBody(commit);
  }

  /** Distinct commits get distinct tags. */
  lemma EncodingIsInjective(a: seq<Byte>, b: seq<Byte>)
    requires Encoded(a) == Encoded(b)
    ensures a == b
  {
    DecodesBody(a);
    DecodesBody(b);
    assert Encoded(a)[2..] == EncodedBody(a) && Encoded(b)[2..] == EncodedBody(b);
  }

  /** Tags use letters, digits, underscore and dash only, start with c_, and are at most three times as long. */
  lemma TagAlphabet(s: seq<Byte>)
    ensures var tag := Encoded(s);
            && 2 + |s| <= |tag| <= 2 + 3 * |s| && PREFIX <= tag
            && forall i :: 0 <= i < |tag| ==> IsTagByte(tag[i])
  {
    BodyAlphabet(s);
    assert Encoded(s)[..2] == PREFIX && Encoded(s)[2..] == EncodedBody(s);
    forall i | 0 <= i < |Encoded(s)| ensures IsTagByte(Encoded(s)[i]) {
      if i >= 2 { assert Encoded(s)[i] == EncodedBody(s)[i - 2]; }
    }
  }

  predicate IsTagByte(b: Byte) {
    IsAlphanumeric(b) || b == UNDERSCORE || b == DASH
  }

  lemma {:induction false} BodyAlphabet(s: seq<Byte>)
    ensures forall i :: 0 <= i < |EncodedBody(s)| ==> IsTagByte(EncodedBody(s)[i])
    ensures |s| <= |EncodedBody(s)| <= 3 * |s|
  {
    if s != [] {
      BodyAlphabet(s[1..]);
    }
  }

  // ── Which tags are encodings ───────────────────────────────────────────────

  predicate IsPlain(b: Byte) {
    IsAlphanumeric(b) || b == UNDERSCORE
  }

  predicate IsLowerHex(b: Byte) {
    IsDigit(b) || 97 <= b <= 102
  }

  function LowerHexValue(b: Byte): nat
    requires IsLowerHex(b)
  {
    if IsDigit(b) then b - 48 else b - 87
  }

  /** The escape of a byte that needs one, in lower case. */
  predicate IsCanonicalEscape(a: Byte, b: Byte) {
    && IsLowerHex(a) && IsLowerHex(b)
    && var v: Byte := 16 * LowerHexValue(a) + LowerHexValue(b);
       !IsPlain(v) && v != DASH
  }

  /** The item at i: a plain byte as it is, a dash doubled, any other byte escaped in lower case. */
  predicate ItemCanonical(bytes: seq<Byte>, i: nat)
    requires i < |bytes|
  {
    if bytes[i] != DASH then IsPlain(bytes[i])
    else if i + 1 < |bytes| && bytes[i + 1] == DASH then true
    else i + 2 < |bytes| && IsCanonicalEscape(bytes[i + 1], bytes[i + 2])
  }

  /** All items from i on are canonical. */
  predicate CanonicalFrom(bytes: seq<Byte>, i: nat)
    decreases |bytes| - i
  {
    i >= |bytes| || (ItemCanonical(bytes, i) && CanonicalFrom(bytes, i + ItemLength(bytes, i)))
  }

  /** How many bytes the item at i takes, if it is complete. */
  function ItemLength(bytes: seq<Byte>, i: nat): (n: nat)
    requires i < |bytes|
    ensures 1 <= n <= 3
  {
    if bytes[i] != DASH then 1 else if i + 1 < |bytes| && bytes[i + 1] == DASH then 2 else 3
  }

  lemma EscapeIsCanonical(a: Byte, b: Byte, v: Byte)
    requires a != DASH && ParseHex(a, b) == Some(v)
    ensures EncodedByte(v) == [DASH, a, b] <==> IsCanonicalEscape(a, b)
  {
    if IsLowerHex(a) && IsLowerHex(b) {
      assert v == 16 * LowerHexValue(a) + LowerHexValue(b);
      assert HexDigit(v / 16) == a && HexDigit(v % 16) == b;
    }
  }

  lemma HeadsAgree<T>(a: seq<T>, b: seq<T>, x: seq<T>, y: seq<T>)
    requires |a| == |b|
    ensures a + x == b + y <==> a == b && x == y
  {
    if a + x == b + y {
      assert a == (a + x)[..|a|] && b == (b + y)[..|b|];
      assert x == (a + x)[|a|..] && y == (b + y)[|b|..];
    }
  }

  lemma {:induction false} BodyIsCanonical(bytes: seq<Byte>, i: nat)
    requires i <= |bytes| && DecodedFrom(bytes, i).Ok?
    ensures EncodedBody(DecodedFrom(bytes, i).value) == bytes[i..] <==> CanonicalFrom(bytes, i)
    decreases |bytes| - i
  {
    if i < |bytes| {
      var out, n := DecodedFrom(bytes, i).value, ItemLength(bytes, i);
      DecodedItem(bytes, i);
      BodyIsCanonical(bytes, i + n);
      var rest := DecodedFrom(bytes, i + n).value;
      assert out[1..] == rest;
      ItemMatches(bytes, i, n, out[0]);
      if ItemCanonical(bytes, i) {
        HeadsAgree(EncodedByte(out[0]), bytes[i..i + n], EncodedBody(rest), bytes[i + n..]);
        assert bytes[i..] == bytes[i..i + n] + bytes[i + n..];
      } else {
        OtherStart(bytes, i, n, out[0], EncodedBody(rest));
      }
    }
  }

  lemma ItemMatches(bytes: seq<Byte>, i: nat, n: nat, v: Byte)
    requires i < |bytes| && DecodedFrom(bytes, i).Ok? && n == ItemLength(bytes, i) && i + n <= |bytes|
    requires DecodedFrom(bytes, i).value != [] && v == DecodedFrom(bytes, i).value[0]
    ensures EncodedByte(v) == bytes[i..i + n] <==> ItemCanonical(bytes, i)
  {
    if n == 1 {
      assert bytes[i..i + 1] == [bytes[i]] && v == bytes[i];
      assert !IsPlain(v) ==> |EncodedByte(v)| == 3;
    } else if n == 2 {
      assert bytes[i..i + 2] == [DASH, DASH] && v == DASH;
    } else {
      assert bytes[i..i + 3] == [DASH, bytes[i + 1], bytes[i + 2]];
      EscapeIsCanonical(bytes[i + 1], bytes[i + 2], v);
    }
  }

  /** The item at i gives the first byte, and what follows it the others. */
  lemma DecodedItem(bytes: seq<Byte>, i: nat)
    requires i < |bytes| && DecodedFrom(bytes, i).Ok?
    ensures i + ItemLength(bytes, i) <= |bytes|
    ensures var next := DecodedFrom(bytes, i + ItemLength(bytes, i));
            next.Ok? && DecodedFrom(bytes, i).value != [] && DecodedFrom(bytes, i).value == [DecodedFrom(bytes, i).value[0]] + next.value
  {
  }

  /** A byte written otherwise than it is encoded already differs in its first two bytes. */
  lemma OtherStart(bytes: seq<Byte>, i: nat, n: nat, v: Byte, tail: seq<Byte>)
    requires i < |bytes| && DecodedFrom(bytes, i).Ok? && n == ItemLength(bytes, i)
    requires DecodedFrom(bytes, i).value != [] && v == DecodedFrom(bytes, i).value[0]
    requires i + n <= |bytes| && EncodedByte(v) != bytes[i..i + n]
    ensures n == 2 || EncodedByte(v) + tail != bytes[i..]
  {
    var whole := bytes[i..];
    assert whole[0] == bytes[i];
    if n == 1 {
      assert v == bytes[i] && bytes[i..i + 1] == [v];
      assert EncodedByte(v)[0] == DASH;
    } else if n == 3 {
      assert whole[1] == bytes[i + 1] && whole[2] == bytes[i + 2];
      assert |EncodedByte(v)| == 3 ==> (EncodedByte(v) + tail)[..3] == EncodedByte(v);
      assert whole[..3] == bytes[i..i + 3];
      assert |EncodedByte(v)| == 2 ==> (EncodedByte(v) + tail)[1] == DASH;
      assert |EncodedByte(v)| == 1 ==> (EncodedByte(v) + tail)[0] == v != DASH;
    }
  }

  /** A tag that decodes is the encoding of its commit exactly when it is written canonically. */
  lemma EncodingsAreCanonical(tag: seq<Byte>)
    requires Decoded(tag).Ok?
    ensures tag == Encoded(Decoded(tag).value) <==> CanonicalFrom(tag[2..], 0)
  {
    var body := tag[2..];
    BodyIsCanonical(body, 0);
    assert body[0..] == body && tag == PREFIX + body;
    HeadsAgree(PREFIX, PREFIX, EncodedBody(Decoded(tag).value), body);
  }

  /** Decoding accepts tags that encoding never writes, so it alone does not identify a tag. */
  lemma DecodingHasAliases()
    ensures var alias: seq<Byte> := PREFIX + [DASH, 50, 68];
            Decoded(alias) == Decoded(Encoded([DASH])) == Ok([DASH]) && alias != Encoded([DASH])
    ensures Decoded(PREFIX + [DASH, PLUS, 65]) == Ok([10])
  {
    AsciiPair(DASH, DASH);
    RoundTrip([DASH]);
    DecodesEscape(50, 68, DASH);
    DecodesEscape(PLUS, 65, 10);
    assert [DASH][1..] == [] && EncodedBody([DASH]) == [DASH, DASH];
  }

  lemma DecodesEscape(a: Byte, b: Byte, v: Byte)
    requires a < 0x80 && b < 0x80 && v < 0x80 && a != DASH && ParseHex(a, b) == Some(v)
    ensures Decoded(PREFIX + [DASH, a, b]) == Ok([v])
  {
    var bytes := [DASH, a, b];
    AsciiPair(a, b);
    AsciiPair(v, v);
    assert (PREFIX + bytes)[2..] == bytes;
    assert DecodedFrom(bytes, 3) == Ok([]);
    assert [v] + [] == [v];
    assert DecodedFrom(bytes, 0) == Ok([v]);
  }

  lemma AsciiPair(a: Byte, b: Byte)
    requires a < 0x80 && b < 0x80
    ensures Valid([a, b]) && Valid([a])
  {
    assert [a, b][1..] == [b] && [b][1..] == [] && [a][1..] == [];
  }
}
