/** GUIDs of the browser build (`src/utility/database_helper_utility.rs`):
    the 16-byte UUID of the `uuid` crate, its text forms, and the
    conversions between the hyphenated form (RFC 4122, section 3) and the
    32-character "sqlite" form that the GnuCash tables store. */
module Guids {
  import opened Wrappers
  import opened Text

  /** A UUID is 16 bytes. */
  type Uuid = s: seq<Byte> | |s| == 16
    witness [0, 0, 0, 0, 0, 0, 0, 0, 0, 0, 0, 0, 0, 0, 0, 0]

  /** `Uuid::nil()`. */
  const Nil: Uuid := [0, 0, 0, 0, 0, 0, 0, 0, 0, 0, 0, 0, 0, 0, 0, 0]

  /** Two lower-case hex digits per byte, most significant digit first. */
  function Hex(bs: seq<Byte>): (r: string)
    ensures |r| == 2 * |bs|
    ensures forall i :: 0 <= i < |r| ==> IsHexDigit(r[i]) && !('A' <= r[i] <= 'Z') && r[i] != '-'
  {
    if bs == [] then [] else [LowerHexChar(bs[0] / 16), LowerHexChar(bs[0] % 16)] + Hex(bs[1..])
  }

  lemma {:induction false} HexConcat(a: seq<Byte>, b: seq<Byte>)
    ensures Hex(a + b) == Hex(a) + Hex(b)
  {
    if a == [] {
      assert a + b == b;
    } else {
      assert (a + b)[1..] == a[1..] + b;
      HexConcat(a[1..], b);
    }
  }

  /** The inverse of `Hex`, accepting either case; `None` on an odd length
      or a character that is not a hex digit. */
  function ParseHex(s: string): (r: Option<seq<Byte>>)
    ensures r.Some? ==> 2 * |r.value| == |s|
  {
    if s == [] then Some([])
    else if |s| < 2 || !IsHexDigit(s[0]) || !IsHexDigit(s[1]) then None
    else match ParseHex(s[2..])
      case None => None
      case Some(rest) => Some([16 * HexValue(s[0]) + HexValue(s[1])] + rest)
  }

  lemma {:induction false} ParseHexOfHex(bs: seq<Byte>)
    ensures ParseHex(Hex(bs)) == Some(bs)
  {
    if bs != [] {
      var s := Hex(bs);
      assert s[2..] == Hex(bs[1..]);
      ParseHexOfHex(bs[1..]);
      assert 16 * HexValue(s[0]) + HexValue(s[1]) == bs[0];
      assert [bs[0]] + bs[1..] == bs;
    }
  }

  /** `Uuid::to_string()`: the hyphenated 8-4-4-4-12 form in lower case. */
  function Hyphenated(g: Uuid): (r: string)
    ensures |r| == 36
  {
    Hex(g[0..4]) + "-" + Hex(g[4..6]) + "-" + Hex(g[6..8]) + "-" + Hex(g[8..10]) + "-" + Hex(g[10..16])
  }

  /** The 32-digit form without dashes (`Uuid::simple()`). */
  function Simple(g: Uuid): (r: string)
    ensures |r| == 32
  {
    Hex(g)
  }

  /** Groups of a hyphenated string: dashes at 8, 13, 18 and 23, hex digits
      elsewhere (the `uuid` crate's hyphenated parser). */
  function ParseHyphenated(s: string): (r: Option<Uuid>)
    requires |s| == 36
  {
    if s[8] != '-' || s[13] != '-' || s[18] != '-' || s[23] != '-' then None
    else match ParseHex(s[0..8] + s[9..13] + s[14..18] + s[19..23] + s[24..36])
      case None => None
      case Some(bs) => Some(bs)
  }

  /** `Uuid::parse_str`: 32 hex digits, the hyphenated form, the hyphenated
      form in braces, or the hyphenated form after "urn:uuid:". Any other
      length is refused. Hex digits may be of either case. */
  function ParseUuid(s: string): (r: Option<Uuid>)
    ensures r.Some? ==> |s| in {32, 36, 38, 45}
  {
    if |s| == 32 then
      match ParseHex(s)
      case None => None
      case Some(bs) => Some(bs)
    else if |s| == 36 then ParseHyphenated(s)
    else if |s| == 38 && s[0] == '{' && s[37] == '}' then ParseHyphenated(s[1..37])
    else if |s| == 45 && s[..9] == "urn:uuid:" then ParseHyphenated(s[9..])
    else None
  }

  lemma ParseUuidOfHyphenated(g: Uuid)
    ensures ParseUuid(Hyphenated(g)) == Some(g)
  {
    JoinGroups(Hex(g[0..4]), Hex(g[4..6]), Hex(g[6..8]), Hex(g[8..10]), Hex(g[10..16]));
    SimpleGroups(g);
    ParseHexOfHex(g);
  }

  /** Where the groups and dashes of a hyphenated string sit. */
  lemma JoinGroups(p0: string, p1: string, p2: string, p3: string, p4: string)
    requires |p0| == 8 && |p1| == 4 && |p2| == 4 && |p3| == 4 && |p4| == 12
    ensures var s := p0 + "-" + p1 + "-" + p2 + "-" + p3 + "-" + p4;
      |s| == 36 && s[8] == '-' && s[13] == '-' && s[18] == '-' && s[23] == '-' &&
      s[0..8] == p0 && s[9..13] == p1 && s[14..18] == p2 && s[19..23] == p3 && s[24..36] == p4
  {
  }

  lemma ParseUuidOfSimple(g: Uuid)
    ensures ParseUuid(Simple(g)) == Some(g)
  {
    ParseHexOfHex(g);
  }

  /** The 32-character input split at 8, 12, 16 and 20 and joined with dashes. */
  function InsertDashes(s: string): (r: string)
    requires |s| == 32
    ensures |r| == 36
  {
    s[0..8] + "-" + s[8..12] + "-" + s[12..16] + "-" + s[16..20] + "-" + s[20..32]
  }

  predicate IsAscii(c: char) { c < '\U{80}' }

  /** Number of UTF-8 bytes that encode `c`. */
  function Utf8Width(c: char): (n: nat)
    ensures 1 <= n <= 4 && (n == 1 <==> IsAscii(c))
  {
    if c < '\U{80}' then 1 else if c < '\U{800}' then 2 else if c < '\U{10000}' then 3 else 4
  }

  /** The UTF-8 length of `s[..k]`, i.e. the byte offset of character `k`. */
  function ByteOffset(s: string, k: nat): (n: nat)
    requires k <= |s|
    ensures n >= k
  {
    if k == 0 then 0 else ByteOffset(s, k - 1) + Utf8Width(s[k - 1])
  }

  /** Rust's `str::is_char_boundary(b)`: `b` starts a character or is the end. */
  predicate IsCharBoundary(s: string, b: nat) {
    exists k | 0 <= k <= |s| :: ByteOffset(s, k) == b
  }

  lemma {:induction false} AsciiOffsets(s: string, k: nat)
    requires k <= |s| && forall i :: 0 <= i < |s| ==> IsAscii(s[i])
    ensures ByteOffset(s, k) == k
  {
    if k > 0 {
      AsciiOffsets(s, k - 1);
    }
  }

  /** `convert_string_to_guid`: a 32-character input gets dashes inserted
      before parsing, any other input is parsed unchanged. The lengths are
      counted in characters while the slices are taken in bytes, so a
      32-character input with a non-ASCII character panics when a slice
      bound is not a character boundary, and is otherwise refused by the
      parser. */
  function ConvertStringToGuid(s: string): (r: Outcome<Uuid>)
    ensures r.Ok? ==> ParseUuid(if |s| == 32 then InsertDashes(s) else s) == Some(r.value)
    ensures |s| != 32 ==> r == (if ParseUuid(s).Some? then Ok(ParseUuid(s).value) else Err(InvalidGuidMessage))
    ensures |s| == 32 && (forall i :: 0 <= i < 32 ==> IsAscii(s[i])) ==>
              r == (match ParseUuid(InsertDashes(s))
                    case Some(g) => Ok(g)
                    case None => Err(InvalidGuidMessage))
  {
    if |s| == 32 && exists i | 0 <= i < 32 :: !IsAscii(s[i]) then
      if forall b | b in {8, 12, 16, 20, 32} :: IsCharBoundary(s, b) then Err(InvalidGuidMessage)
      else Panic("byte index is not a char boundary")
    else
      var t := if |s| == 32 then InsertDashes(s) else s;
      match ParseUuid(t)
      case Some(g) => Ok(g)
      case None => Err(InvalidGuidMessage)
  }

  /** Stands for the `uuid` crate's error text, whose wording is not modelled. */
  const InvalidGuidMessage: string := "invalid UUID"

  /** `convert_guid_to_sqlite_string`: lower-case the hyphenated form and,
      as it has 36 characters, drop the dashes. */
  function ConvertGuidToSqliteString(g: Uuid): (r: string)
  {
    var s := LowerString(Hyphenated(g));
    if |s| == 36 then Remove(s, '-') else s
  }

  lemma {:induction false} LowerNoUpper(s: string)
    requires forall i :: 0 <= i < |s| ==> !('A' <= s[i] <= 'Z')
    ensures LowerString(s) == s
  {
    if s != [] {
      LowerNoUpper(s[1..]);
    }
  }

  lemma {:induction false} RemoveConcat(a: string, b: string, c: char)
    ensures Remove(a + b, c) == Remove(a, c) + Remove(b, c)
  {
    if a == [] {
      assert a + b == b;
    } else {
      assert (a + b)[1..] == a[1..] + b;
      RemoveConcat(a[1..], b, c);
    }
  }

  /** Removing the dash after a dash-free group keeps the group. */
  lemma RemoveDashAfter(p: string, q: string)
    requires '-' !in p
    ensures Remove(p + "-" + q, '-') == p + Remove(q, '-')
  {
    RemoveConcat(p + "-", q, '-');
    RemoveConcat(p, "-", '-');
    RemoveAbsent(p, '-');
  }

  /** The simple form is the five groups of the hyphenated form, concatenated. */
  lemma SimpleGroups(g: Uuid)
    ensures Simple(g) == Hex(g[0..4]) + Hex(g[4..6]) + Hex(g[6..8]) + Hex(g[8..10]) + Hex(g[10..16])
  {
    HexConcat(g[0..4], g[4..6]);
    HexConcat(g[0..4] + g[4..6], g[6..8]);
    HexConcat(g[0..4] + g[4..6] + g[6..8], g[8..10]);
    HexConcat(g[0..4] + g[4..6] + g[6..8] + g[8..10], g[10..16]);
    assert g[0..4] + g[4..6] + g[6..8] + g[8..10] + g[10..16] == g;
  }

  /** Dropping the dashes of the hyphenated form leaves the simple form. */
  lemma RemoveDashesOfHyphenated(g: Uuid)
    ensures Remove(Hyphenated(g), '-') == Simple(g)
  {
    RemoveDashesOfGroups(Hex(g[0..4]), Hex(g[4..6]), Hex(g[6..8]), Hex(g[8..10]), Hex(g[10..16]));
    SimpleGroups(g);
  }

  lemma RemoveDashesOfGroups(p0: string, p1: string, p2: string, p3: string, p4: string)
    requires '-' !in p0 && '-' !in p1 && '-' !in p2 && '-' !in p3 && '-' !in p4
    ensures Remove(p0 + "-" + p1 + "-" + p2 + "-" + p3 + "-" + p4, '-') == p0 + p1 + p2 + p3 + p4
  {
    var t3 := p3 + "-" + p4;
    var t2 := p2 + "-" + t3;
    var t1 := p1 + "-" + t2;
    assert p0 + "-" + p1 + "-" + p2 + "-" + p3 + "-" + p4 == p0 + "-" + t1;
    RemoveDashAfter(p3, p4);
    RemoveAbsent(p4, '-');
    assert Remove(t3, '-') == p3 + p4;
    RemoveDashAfter(p2, t3);
    assert Remove(t2, '-') == p2 + (p3 + p4);
    RemoveDashAfter(p1, t2);
    assert Remove(t1, '-') == p1 + (p2 + (p3 + p4));
    RemoveDashAfter(p0, t1);
    Reassociate(p0, p1, p2, p3, p4);
  }

  lemma Reassociate(p0: string, p1: string, p2: string, p3: string, p4: string)
    ensures p0 + (p1 + (p2 + (p3 + p4))) == p0 + p1 + p2 + p3 + p4
  {
  }

  /** Joining groups without upper-case letters by dashes adds none. */
  lemma JoinNoUpper(p0: string, p1: string, p2: string, p3: string, p4: string)
    requires forall i :: 0 <= i < |p0| ==> !('A' <= p0[i] <= 'Z')
    requires forall i :: 0 <= i < |p1| ==> !('A' <= p1[i] <= 'Z')
    requires forall i :: 0 <= i < |p2| ==> !('A' <= p2[i] <= 'Z')
    requires forall i :: 0 <= i < |p3| ==> !('A' <= p3[i] <= 'Z')
    requires forall i :: 0 <= i < |p4| ==> !('A' <= p4[i] <= 'Z')
    ensures var s := p0 + "-" + p1 + "-" + p2 + "-" + p3 + "-" + p4;
      forall i :: 0 <= i < |s| ==> !('A' <= s[i] <= 'Z')
  {
  }

  /** The sqlite form is always the 32 lower-case hex digits of the GUID, with no dash. */
  lemma SqliteStringIsSimple(g: Uuid)
    ensures ConvertGuidToSqliteString(g) == Simple(g)
    ensures |ConvertGuidToSqliteString(g)| == 32 && '-' !in ConvertGuidToSqliteString(g)
    ensures forall i :: 0 <= i < 32 ==> IsHexDigit(Simple(g)[i]) && !('A' <= Simple(g)[i] <= 'Z')
  {
    var h := Hyphenated(g);
    JoinNoUpper(Hex(g[0..4]), Hex(g[4..6]), Hex(g[6..8]), Hex(g[8..10]), Hex(g[10..16]));
    LowerNoUpper(h);
    RemoveDashesOfHyphenated(g);
  }

  /** Dashes inserted into the sqlite form give back the hyphenated form. */
  lemma InsertDashesOfSimple(g: Uuid)
    ensures InsertDashes(Simple(g)) == Hyphenated(g)
  {
    var p0, p1, p2, p3, p4 := Hex(g[0..4]), Hex(g[4..6]), Hex(g[6..8]), Hex(g[8..10]), Hex(g[10..16]);
    var s := Simple(g);
    SimpleGroups(g);
    assert s[0..8] == p0;
    assert s[8..12] == p1;
    assert s[12..16] == p2;
    assert s[16..20] == p3;
    assert s[20..32] == p4;
  }

  /** Reading back what was stored gives the same GUID. */
  lemma SqliteStringRoundTrip(g: Uuid)
    ensures ConvertStringToGuid(ConvertGuidToSqliteString(g)) == Ok(g)
  {
    SqliteStringIsSimple(g);
    InsertDashesOfSimple(g);
    ParseUuidOfHyphenated(g);
    var s := Simple(g);
    assert forall i :: 0 <= i < 32 ==> IsAscii(s[i]);
  }

  /** The hyphenated form is also accepted unchanged. */
  lemma HyphenatedRoundTrip(g: Uuid)
    ensures ConvertStringToGuid(Hyphenated(g)) == Ok(g)
  {
    ParseUuidOfHyphenated(g);
  }
}
