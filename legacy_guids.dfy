/** GUID helpers of the desktop build (`src/database_helper_utility.rs`),
    written against the `guid_create` crate: the null GUID, conversions that
    panic on a malformed string, the NULL-tolerant column reader and the
    NULL-producing query parameter. */
module LegacyGuids {
  import opened Wrappers
  import opened Text
  import opened Guids

  const NullGuidText: string := "00000000-0000-0000-0000-000000000000"

  /** `GUID::parse` of `guid_create`: the hyphenated 8-4-4-4-12 form only. */
  function GuidCreateParse(s: string): (r: Option<Uuid>)
  {
    if |s| == 36 then ParseHyphenated(s) else None
  }

  /** `GUID`'s `Display`: the hyphenated form in upper case. */
  function GuidCreateText(g: Uuid): (r: string)
    ensures |r| == 36 && LowerString(r) == Hyphenated(g)
  {
    UpperHyphen(Hyphenated(g))
  }

  function UpperHyphen(s: string): (r: string)
    requires forall i :: 0 <= i < |s| ==> !('A' <= s[i] <= 'Z')
    ensures |r| == |s| && LowerString(r) == s
  {
    if s == [] then [] else [ToAsciiUpper(s[0])] + UpperHyphen(s[1..])
  }

  /** `_null_guid`: the parse of the all-zero text, unwrapped. */
  function NullGuid(): (r: Uuid)
    ensures GuidCreateParse(NullGuidText) == Some(r)
    ensures forall i :: 0 <= i < 16 ==> r[i] == 0
  {
    NullGuidParses();
    Nil
  }

  lemma NullGuidParses()
    ensures GuidCreateParse(NullGuidText) == Some(Nil)
  {
    var t := Hyphenated(Nil);
    ParseUuidOfHyphenated(Nil);
    assert ParseHyphenated(t) == Some(Nil);
    NilText();
    ParseOfEqual(t, NullGuidText);
  }

  lemma ParseOfEqual(s: string, t: string)
    requires s == t && |s| == 36
    ensures GuidCreateParse(t) == ParseHyphenated(s)
  {
  }

  /** Zero bytes print as '0' digits only. */
  lemma {:induction false} HexOfZeros(z: seq<Byte>)
    requires forall i :: 0 <= i < |z| ==> z[i] == 0
    ensures forall i :: 0 <= i < |Hex(z)| ==> Hex(z)[i] == '0'
  {
    if z != [] {
      HexOfZeros(z[1..]);
      assert Hex(z) == ['0', '0'] + Hex(z[1..]);
    }
  }

  /** The hex text of two, four and six zero bytes. */
  lemma ZeroHex()
    ensures Hex([0, 0]) == "0000"
    ensures Hex([0, 0, 0, 0]) == "00000000"
    ensures Hex([0, 0, 0, 0, 0, 0]) == "000000000000"
  {
    var z2: seq<Byte> := [0, 0];
    var z4: seq<Byte> := [0, 0, 0, 0];
    var z6: seq<Byte> := [0, 0, 0, 0, 0, 0];
    HexOfZeros(z2);
    HexOfZeros(z4);
    HexOfZeros(z6);
  }

  lemma NilGroups()
    ensures Hex(Nil[0..4]) == "00000000" && Hex(Nil[10..16]) == "000000000000"
    ensures Hex(Nil[4..6]) == "0000" && Hex(Nil[6..8]) == "0000" && Hex(Nil[8..10]) == "0000"
  {
    ZeroHex();
    assert Nil[0..4] == [0, 0, 0, 0];
    assert Nil[4..6] == [0, 0] && Nil[6..8] == [0, 0] && Nil[8..10] == [0, 0];
    assert Nil[10..16] == [0, 0, 0, 0, 0, 0];
  }

  lemma NilText()
    ensures Hyphenated(Nil) == NullGuidText
  {
    NilGroups();
    ZeroGroups(Hex(Nil[0..4]), Hex(Nil[4..6]), Hex(Nil[6..8]), Hex(Nil[8..10]), Hex(Nil[10..16]));
  }

  lemma ZeroGroups(a: string, b: string, c: string, d: string, e: string)
    requires a == "00000000" && b == "0000" && c == "0000" && d == "0000" && e == "000000000000"
    ensures a + "-" + b + "-" + c + "-" + d + "-" + e == NullGuidText
  {
  }

  /** `convert_string_to_guid` of this file: the same dash insertion as the
      browser build, but a parse failure panics instead of returning `Err`. */
  function ConvertStringToGuid(s: string): (r: Outcome<Uuid>)
    ensures !r.Err?
    ensures r.Ok? ==> GuidCreateParse(if |s| == 32 then InsertDashes(s) else s) == Some(r.value)
    ensures (|s| != 32 || forall i :: 0 <= i < 32 ==> IsAscii(s[i])) ==>
              (r.Ok? <==> GuidCreateParse(if |s| == 32 then InsertDashes(s) else s).Some?)
  {
    if |s| == 32 && exists i | 0 <= i < 32 :: !IsAscii(s[i]) then
      if forall b | b in {8, 12, 16, 20, 32} :: IsCharBoundary(s, b) then Panic(InvalidGuidMessage)
      else Panic("byte index is not a char boundary")
    else
      var t := if |s| == 32 then InsertDashes(s) else s;
      match GuidCreateParse(t)
      case Some(g) => Ok(g)
      case None => Panic(InvalidGuidMessage)
  }

  /** `convert_string_result_to_guid`. The column read is `None` where
      rusqlite returned `Err` (a NULL column); that gives the null GUID. */
  function ConvertStringResultToGuid(column: Option<string>): (r: Outcome<Uuid>)
    ensures column.None? ==> r == Ok(NullGuid())
    ensures column.Some? ==> r == ConvertStringToGuid(column.value)
  {
    match column
    case None => Ok(NullGuid())
    case Some(s) => ConvertStringToGuid(s)
  }

  /** `convert_guid_to_sqlite_string` of this file: never `Err`, and always
      the 32 lower-case hex digits. */
  function ConvertGuidToSqliteString(g: Uuid): (r: Outcome<string>)
    ensures r == Ok(Simple(g))
  {
    var s := LowerString(GuidCreateText(g));
    SqliteStringIsSimple(g);
    LowerNoUpper(Hyphenated(g));
    if |s| == 36 then Ok(Remove(s, '-')) else Ok(s)
  }

  /** `convert_guid_to_sqlite_parameter`: NULL for the null GUID, the
      sqlite string otherwise. */
  function ConvertGuidToSqliteParameter(g: Uuid): (r: Outcome<Option<string>>)
    ensures r.Ok?
    ensures r.value.None? <==> g == NullGuid()
    ensures r.value.Some? ==> r.value.value == Simple(g) && |r.value.value| == 32
  {
    if g == NullGuid() then Ok(None)
    else
      match ConvertGuidToSqliteString(g)
      case Ok(s) => Ok(Some(s))
      case Err(e) => Err(e)
      case Panic(e) => Panic(e)
  }

  /** What was stored through `ConvertGuidToSqliteString` reads back as the same GUID. */
  lemma SqliteStringRoundTrip(g: Uuid)
    ensures ConvertStringResultToGuid(Some(ConvertGuidToSqliteString(g).value)) == Ok(g)
  {
    SqliteStringIsSimple(g);
    InsertDashesOfSimple(g);
    ParseUuidOfHyphenated(g);
    var s := Simple(g);
    assert forall i :: 0 <= i < 32 ==> IsAscii(s[i]);
  }

  /** A NULL parameter reads back, from a NULL column, as the null GUID, and
      any other parameter reads back as its GUID. */
  lemma ParameterRoundTrip(g: Uuid)
    ensures ConvertStringResultToGuid(ConvertGuidToSqliteParameter(g).value) == Ok(g)
  {
    if g != NullGuid() {
      SqliteStringRoundTrip(g);
    }
  }
}
