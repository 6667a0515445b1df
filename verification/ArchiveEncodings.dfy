/** The archive's byte lengths against the text and the blocks they are lengths of. */
module ArchiveEncodings {
  import opened ArchiveFormat
  import opened ArchiveLengths
  import opened Options

  // Numbers

  /** A number has `d` decimal digits exactly when it lies between the powers of ten. */
  lemma {:induction false} DigitsMean(n: nat, d: nat)
    requires d >= 1
    ensures Digits(n) == d <==> n < Power(d) && (d == 1 || Power(d - 1) <= n)
  {
    if n >= 10 && d > 1 {
      DigitsMean(n / 10, d - 1);
    } else if n >= 10 {
      assert Digits(n) == 1 + Digits(n / 10);
    } else if d > 1 {
      assert Power(d - 1) == 10 * Power(d - 2);
    }
  }

  lemma {:induction false} PowerRises(d: nat)
    ensures Power(d + 1) == 10 * Power(d) && (d > 0 ==> Power(d) == 10 * Power(d - 1))
  {
  }

  lemma {:induction false} PowerIsAbove(d: nat)
    ensures d < Power(d)
  {
    if d > 0 {
      PowerIsAbove(d - 1);
    }
  }

  /** A line of an extended header counts itself: its length is that of its own digits and of the rest, the
      space, the key, the sign, the value and the newline. */
  lemma {:induction false} LineCountsItself(key: nat, value: nat)
    ensures LineLength(key, value) == Digits(LineLength(key, value)) + |" "| + key + |"="| + value + |"\n"|
  {
    hide Digits, Power;
    var rest := key + value + 3;
    var d := Digits(rest);
    DigitsMean(rest, d);
    PowerIsAbove(d);
    PowerRises(d);
    DigitsMean(rest + d, d);
    DigitsMean(rest + d, d + 1);
    DigitsMean(rest + d + 1, d + 1);
  }

  // Characters

  /** The bits of a code point that UTF-8 packs into so many bytes. */
  function Bits(bytes: nat): nat
    requires 1 <= bytes <= 4
  {
    if bytes == 1 then 7 else (7 - bytes) + 6 * (bytes - 1)
  }

  function Two(k: nat): nat {
    if k == 0 then 1 else 2 * Two(k - 1)
  }

  lemma {:induction false} Twos()
    ensures Two(7) == 128 && Two(11) == 2048 && Two(16) == 65536 && Two(21) == 2097152
  {
    assert Two(4) == 16;
    assert Two(8) == 256;
    assert Two(12) == 4096;
    assert Two(16) == 65536;
    assert Two(20) == 1048576;
  }

  /** A character takes the fewest bytes whose bits hold its code point. */
  lemma {:induction false} CharacterTakes(c: char)
    ensures 1 <= Utf8Bytes(c) <= 4 && c as int < Two(Bits(Utf8Bytes(c)))
    ensures forall fewer | 1 <= fewer < Utf8Bytes(c) :: Two(Bits(fewer)) <= c as int
  {
    Twos();
    hide Two;
  }

  /** How the encoder writes a character; a code unit is four hexadecimal digits. */
  datatype Escape = Plain | Short(string) | Unit | Pair

  function EscapeOf(c: char): Escape {
    if c == '"' then Short("\\\"") else if c == '\\' then Short("\\\\") else if c == '\n' then Short("\\n")
    else if c == '\r' then Short("\\r") else if c == '\t' then Short("\\t")
    else if c as int == 8 then Short("\\b") else if c as int == 12 then Short("\\f")
    else if 32 <= c as int <= 126 then Plain
    else if c as int < 65536 then Unit else Pair
  }

  lemma {:induction false} CharacterIsWritten(c: char)
    ensures JsonBytes(c) == match EscapeOf(c)
                            case Plain => 1
                            case Short(s) => |s|
                            case Unit => |"\\u"| + 4
                            case Pair => 2 * (|"\\u"| + 4)
  {
  }

  // Records

  const Digest64 := 64

  const Id32 := 32

  /** A row and the record around the rows, key by key in alphabetical order and without blanks. */
  lemma {:induction false} RecordIsItsText(name: string, size: nat, replace: bool)
    ensures RowLength(name, size)
         == |"{\"bytes\":"| + Digits(size) + |",\"name\":\""| + JsonLength(name)
            + |"\",\"sha256\":\""| + Digest64 + |"\"}"|
    ensures FrameLength(replace)
         == |"{\"members\":["| + |"],\"replace\":"| + (if replace then |"true"| else |"false"|)
            + |",\"schema\":\"xta.artifact-archive/1\""| + |",\"sha256\":\""| + Digest64
            + |"\",\"transaction\":\""| + Id32 + |"\"}"|
  {
  }

  /** The length of a text is the sum over its characters. */
  lemma {:induction false} TextAddsUp(s: string, c: char)
    ensures Utf8Length("") == JsonLength("") == 0
    ensures Utf8Length(s + [c]) == Utf8Length(s) + Utf8Bytes(c)
    ensures JsonLength(s + [c]) == JsonLength(s) + JsonBytes(c)
  {
    if s == "" {
      assert s + [c] == [c];
    } else {
      TextAddsUp(s[1..], c);
      assert (s + [c])[1..] == s[1..] + [c];
    }
  }

  /** The rows of a record stand one after another with a comma between them. */
  lemma {:induction false} RowsAddUp(ms: seq<Member>, m: Member)
    ensures RowsLength([]) == 0
    ensures RowsLength(ms + [m]) == RowsLength(ms) + (if ms == [] then 0 else |","|) + RowLength(m.name, m.size)
  {
    hide RowLength;
    if ms == [] {
      assert ms + [m] == [m];
    } else {
      RowsAddUp(ms[1..], m);
      assert (ms + [m])[1..] == ms[1..] + [m];
    }
  }

  /** An extended header is a line for a path that does not fit and a line for a size that does not fit. */
  lemma {:induction false} HeaderIsItsLines(name: string, size: nat)
    ensures PaxLength(name, size)
         == (if (forall c <- name :: c as int < 128) && |name| <= 62 then 0
             else LineLength(|"path"|, |"DATA/"| + Id32 + |"/"| + Utf8Length(name)))
            + (if size < 8589934592 then 0 else LineLength(|"size"|, Digits(size)))
  {
    hide LineLength, Digits, Utf8Length, NameFits;
    FieldHolds(name);
  }

  /** A name fits its header exactly when it is ASCII and, with the directory of its transaction in front of it,
      at most 100 characters long. */
  lemma {:induction false} FieldHolds(name: string)
    ensures NameFits(name)
        <==> (forall c <- name :: c as int < 128) && |"DATA/"| + Id32 + |"/"| + |name| <= 100
  {
    var field := NameField(name);
    if NameFits(name) {
      forall i | 0 <= i < |name|
        ensures name[i] as int < 128
      {
        assert field[i] == name[i];
      }
    } else if |name| <= 62 {
      var i :| 0 <= i < |name| && field[i] != name[i];
      assert name[i] in name;
    }
  }

  /** A member has an extended header exactly when its name or its size does not fit; the header carries what does
      not fit and nothing else, and a size that it carries is zero in the member's own header. */
  lemma {:induction false} ExtendedWhenNeeded(txn: nat, m: Member)
    ensures var hs := HeaderBlocks(txn, m);
      var fits, small := (forall c <- m.name :: c as int < 128) && |m.name| <= 62, m.size < 8589934592;
      if fits && small then hs == [Head(Data(txn, m.name), m.size)]
      else
        && |hs| > 2 && hs[0] == Ext(|hs| - 2)
        && (forall k | 1 <= k < |hs| - 1 ::
              hs[k] == Pax(if fits then None else Some(Data(txn, m.name)), if small then None else Some(m.size),
                           k - 1, |hs| - 2))
        && hs[|hs| - 1].Head? && hs[|hs| - 1].bytes == (if small then m.size else 0)
  {
    FieldHolds(m.name);
  }

  /** Eleven octal digits hold the sizes below 8 GiB, and the budget is 64 MiB. */
  lemma {:induction false} Bounds()
    ensures SIZE_FIELD == 8 * 1024 * 1024 * 1024 && MAX_METADATA == 64 * 1024 * 1024 && SIZE_LIMIT == Two(64)
    ensures NAME_PREFIX == |"DATA/"| + Id32 + |"/"|
  {
    assert Two(8) == 256;
    assert Two(16) == 65536;
    assert Two(24) == 16777216;
    assert Two(32) == 0x1_0000_0000;
    assert Two(40) == 0x100_0000_0000;
    assert Two(48) == 0x1_0000_0000_0000;
    assert Two(56) == 0x100_0000_0000_0000;
  }

  /** Data is padded to whole blocks of 512 bytes, and to no more than it needs. */
  lemma {:induction false} BlocksHold(bytes: nat)
    ensures bytes <= Units(bytes) * 512 < bytes + 512
  {
  }
}
