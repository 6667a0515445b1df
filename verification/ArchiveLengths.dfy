/** How long the archive's metadata is in bytes: extended headers and commit records. */
module ArchiveLengths {
  /** Commit records and extended headers above this many bytes are refused. */
  const MAX_METADATA := 64 * 1024 * 1024

  /** The ustar name field holds 100 bytes, of which `DATA/<32 digits>/` takes 38. */
  const NAME_FIELD := 62

  const NAME_PREFIX := 38

  /** Sizes from 8 GiB on do not fit the octal size field. */
  const SIZE_FIELD := 8589934592

  /** File sizes are 64-bit. */
  const SIZE_LIMIT := 0x1_0000_0000_0000_0000

  function Digits(n: nat): (d: nat)
    ensures d >= 1
  {
    if n < 10 then 1 else 1 + Digits(n / 10)
  }

  function Power(k: nat): (p: nat)
    ensures p >= 1
  {
    if k == 0 then 1 else 10 * Power(k - 1)
  }

  lemma {:induction false} DigitsAtMost(n: nat, k: nat)
    requires k >= 1 && n < Power(k)
    ensures Digits(n) <= k
  {
    if n >= 10 {
      DigitsAtMost(n / 10, k - 1);
    }
  }

  // Characters

  function Utf8Bytes(c: char): nat {
    if c < 128 as char then 1 else if c < 2048 as char then 2 else if c < 65536 as char then 3 else 4
  }

  /** JSON in ASCII: short escapes, `\uXXXX`, and a pair of those beyond the basic plane. */
  function JsonBytes(c: char): nat {
    if c == '"' || c == '\\' || c == '\n' || c == '\r' || c == '\t' || c == 8 as char || c == 12 as char then 2
    else if ' ' <= c <= '~' then 1
    else if c < 65536 as char then 6
    else 12
  }

  function Utf8Length(s: string): nat {
    if s == "" then 0 else Utf8Bytes(s[0]) + Utf8Length(s[1..])
  }

  function JsonLength(s: string): nat {
    if s == "" then 0 else JsonBytes(s[0]) + JsonLength(s[1..])
  }

  lemma {:induction false} JsonIsLonger(s: string)
    ensures Utf8Length(s) <= JsonLength(s)
  {
    if s != "" {
      JsonIsLonger(s[1..]);
    }
  }

  // Extended headers

  /** The ustar name field of a logical name: ASCII with replacement, then cut. */
  function NameField(name: string): string {
    seq(if |name| <= NAME_FIELD then |name| else NAME_FIELD,
        i requires 0 <= i < |name| => if name[i] < 128 as char then name[i] else '?')
  }

  predicate NameFits(name: string) {
    NameField(name) == name
  }

  /** One line of an extended header: its own length, a space, key, `=`, value and newline. */
  function LineLength(key: nat, value: nat): nat {
    var rest := key + value + 3;
    rest + Digits(rest + Digits(rest))
  }

  /** The bytes of the extended header of a member: a line for the path and one for the size, as needed. */
  function PaxLength(name: string, size: nat): nat {
    (if NameFits(name) then 0 else LineLength(4, NAME_PREFIX + Utf8Length(name)))
    + (if size < SIZE_FIELD then 0 else LineLength(4, Digits(size)))
  }

  lemma {:induction false} SizeLineIsShort(size: nat)
    requires size < SIZE_LIMIT
    ensures LineLength(4, Digits(size)) <= 29
  {
    assert Power(8) == 100000000;
    assert Power(16) == 10000000000000000;
    assert Power(20) == 100000000000000000000;
    DigitsAtMost(size, 20);
    var rest := 7 + Digits(size);
    DigitsAtMost(rest, 2);
    DigitsAtMost(rest + Digits(rest), 2);
  }

  // Commit records

  /** One row: its keys and punctuation, the digits of the size, the name, and a digest. */
  function RowLength(name: string, size: nat): nat {
    96 + JsonLength(name) + Digits(size)
  }

  /** The record around its rows: schema, transaction, digest and the replace flag. */
  function FrameLength(replace: bool): nat {
    if replace then 188 else 189
  }

  /** A member whose extended header is over the budget has a row that is over the budget too:
      JSON never writes a name shorter than UTF-8 does, and a row says more around it. */
  lemma {:induction false} RowOutgrowsHeader(name: string, size: nat)
    requires size < SIZE_LIMIT
    ensures PaxLength(name, size) <= RowLength(name, size) || MAX_METADATA < RowLength(name, size)
  {
    hide NameFits, Digits, LineLength, JsonLength, Utf8Length;
    JsonIsLonger(name);
    SizeLineIsShort(size);
    if Utf8Length(name) < MAX_METADATA {
      PathLineIsShort(Utf8Length(name));
    }
  }

  lemma {:induction false} PathLineIsShort(bytes: nat)
    requires bytes < MAX_METADATA
    ensures LineLength(4, NAME_PREFIX + bytes) <= bytes + 54
  {
    assert Power(8) == 100000000;
    var rest := 7 + NAME_PREFIX + bytes;
    DigitsAtMost(rest, 8);
    DigitsAtMost(rest + Digits(rest), 8);
  }
}
