/** The check `valid_database` (`src/utility/database_helper_utility.rs`)
    makes on a file the user opens, before handing it to sql.js: at least
    16 bytes, and a header that reads "SQLITE FORMAT" once ASCII letters are
    upper-cased. */
module DatabaseFile {
  import opened Wrappers
  import opened Text

  const HeaderWord: string := "SQLITE FORMAT"

  /** The 16-byte header every SQLite 3 database file starts with:
      "SQLite format 3" and a NUL byte (section 1.3 of the SQLite file
      format document). */
  const SqliteMagic: seq<Byte> := [83, 81, 76, 105, 116, 101, 32, 102, 111, 114, 109, 97, 116, 32, 51, 0]

  /** `letter.to_ascii_uppercase() as char`: a byte read as the character of
      the same code, with ASCII lower-case letters raised. */
  function UpperByte(b: Byte): (c: char)
  {
    ToAsciiUpper(b as char)
  }

  /** The first 13 bytes spell the header word, letters in either case. */
  predicate HasHeaderWord(file: seq<Byte>)
  {
    |file| >= |HeaderWord| && forall i :: 0 <= i < |HeaderWord| ==> UpperByte(file[i]) == HeaderWord[i]
  }

  function ShortFileMessage(n: nat): string
  {
    "The selected file is not a valid SQLite Database! Its length is " + NatToString(n) + "."
  }

  const BadHeaderMessage: string := "The selected file does not have a valid SQLite Database header."

  /** What `valid_database` answers, stated directly. */
  function DatabaseVerdict(file: seq<Byte>): (r: Outcome<()>)
  {
    if |file| < 16 then Err(ShortFileMessage(|file|))
    else if HasHeaderWord(file) then Ok(())
    else Err(BadHeaderMessage)
  }

  /** `valid_database`: upper-cases bytes 0 to 14 into a descriptor, one at
      a time, and looks for the header word at its start. */
  method ValidDatabase(file: seq<Byte>) returns (r: Outcome<()>)
    ensures r == DatabaseVerdict(file)
  {
    if |file| < 16 {
      return Err(ShortFileMessage(|file|));
    }
    var descriptor: string := "";
    for i := 0 to 15
      invariant |descriptor| == i
      invariant forall k :: 0 <= k < i ==> descriptor[k] == UpperByte(file[k])
    {
      descriptor := descriptor + [UpperByte(file[i])];
    }
    if !StartsWith(descriptor, HeaderWord) {
      return Err(BadHeaderMessage);
    }
    assert forall i :: 0 <= i < |HeaderWord| ==> descriptor[..|HeaderWord|][i] == HeaderWord[i];
    return Ok(());
  }

  /** Every genuine SQLite 3 file passes. */
  lemma MagicAccepted(file: seq<Byte>)
    requires |file| >= 16 && file[..16] == SqliteMagic
    ensures DatabaseVerdict(file) == Ok(())
  {
    assert forall i :: 0 <= i < 16 ==> file[i] == SqliteMagic[i];
  }

  /** The verdict depends only on the length and on the first 13 bytes,
      and only on their upper-cased form. */
  lemma VerdictOnlyReadsHeaderWord(f: seq<Byte>, g: seq<Byte>)
    requires |f| >= 16 && |g| >= 16
    requires forall i :: 0 <= i < |HeaderWord| ==> UpperByte(f[i]) == UpperByte(g[i])
    ensures DatabaseVerdict(f) == DatabaseVerdict(g)
  {
  }

  /** A file whose first byte is anything but 's' or 'S' is refused. */
  lemma WrongFirstByteRefused(file: seq<Byte>)
    requires |file| >= 16 && file[0] != 83 && file[0] != 115
    ensures DatabaseVerdict(file) == Err(BadHeaderMessage)
  {
    assert UpperByte(file[0]) != HeaderWord[0];
  }
}
