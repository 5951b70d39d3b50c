/**
 The ID6 notation of gateway identifiers (basicstation/structs/eui64.go): four blocks of
 hexadecimal digits, leading zeros omitted, and "::" for a run of zero blocks. Text is a
 string of bytes.
 */
module Eui64 {
  import opened Prelude

  type Byte = n: nat | n < 256

  /** Indexing past a string or an array stops the program. */
  datatype Outcome = Parsed(eui: seq<Byte>) | BadHex | BadEui | Panics

  type Identifier = e: seq<Byte> | |e| == 8 witness [0, 0, 0, 0, 0, 0, 0, 0]

  // ----- hexadecimal

  predicate IsHexDigit(c: char) {
    '0' <= c <= '9' || 'a' <= c <= 'f' || 'A' <= c <= 'F'
  }

  function Digit(c: char): (d: nat)
    requires IsHexDigit(c)
    ensures d < 16
  {
    if c <= '9' then c as int - '0' as int
    else if c <= 'F' then c as int - 'A' as int + 10
    else c as int - 'a' as int + 10
  }

  function DigitChar(d: nat): (c: char)
    requires d < 16
    ensures IsHexDigit(c) && Digit(c) == d
  {
    "0123456789abcdef"[d]
  }

  predicate IsHex(w: string) {
    forall i :: 0 <= i < |w| ==> IsHexDigit(w[i])
  }

  /** The number that the digits stand for. */
  function Number(w: string): nat
    requires IsHex(w)
  {
    if w == "" then 0 else 16 * Number(w[..|w| - 1]) + Digit(w[|w| - 1])
  }

  /** Two digits a byte; None is an error of the decoder. */
  function DecodeHex(v: string): Option<seq<Byte>> {
    if v == "" then Some([])
    else if |v| == 1 || !IsHexDigit(v[0]) || !IsHexDigit(v[1]) then None
    else
      match DecodeHex(v[2..])
      case None => None
      case Some(more) => Some([16 * Digit(v[0]) + Digit(v[1])] + more)
  }

  function Padded(w: string): string
    requires |w| <= 4
  {
    "0000"[|w|..] + w
  }

  lemma {:induction false} LeadingZero(w: string)
    requires IsHex(w)
    ensures IsHex("0" + w) && Number("0" + w) == Number(w)
    decreases |w|
  {
    var z := "0" + w;
    assert forall i :: 0 < i < |z| ==> z[i] == w[i - 1];
    if w != "" {
      LeadingZero(w[..|w| - 1]);
      assert z[..|z| - 1] == "0" + w[..|w| - 1];
    }
  }

  lemma {:induction false} PaddingKeepsNumber(w: string)
    requires IsHex(w) && |w| <= 4
    ensures IsHex(Padded(w)) && Number(Padded(w)) == Number(w)
    decreases 4 - |w|
  {
    if |w| == 4 {
      assert Padded(w) == w;
    } else {
      LeadingZero(w);
      PaddingKeepsNumber("0" + w);
      assert Padded("0" + w) == Padded(w);
    }
  }

  lemma NumberOfFour(v: string)
    requires |v| == 4 && IsHex(v)
    ensures Number(v) == 4096 * Digit(v[0]) + 256 * Digit(v[1]) + 16 * Digit(v[2]) + Digit(v[3])
  {
    assert v[..3][..2] == v[..2] && v[..2][..1] == v[..1] && v[..1][..0] == "";
    assert Number(v[..1]) == Digit(v[0]);
    assert Number(v[..2]) == 16 * Digit(v[0]) + Digit(v[1]);
    assert Number(v[..3]) == 16 * Number(v[..2]) + Digit(v[2]);
  }

  lemma DecodeTwo(v: string, more: string)
    requires |v| == 2
    ensures DecodeHex(v + more) ==
            if !IsHex(v) || DecodeHex(more) == None then None
            else Some([16 * Digit(v[0]) + Digit(v[1])] + DecodeHex(more).value)
  {
    assert (v + more)[2..] == more;
  }

  lemma DecodeFour(v: string)
    requires |v| == 4
    ensures DecodeHex(v) ==
            if IsHex(v) then Some([16 * Digit(v[0]) + Digit(v[1]), 16 * Digit(v[2]) + Digit(v[3])]) else None
  {
    DecodeTwo(v[..2], v[2..]);
    DecodeTwo(v[2..], "");
    assert v[..2] + v[2..] == v && v[2..] + "" == v[2..];
    assert IsHex(v) <==> IsHex(v[..2]) && IsHex(v[2..]);
    if IsHex(v) {
      var first, second: Byte := 16 * Digit(v[0]) + Digit(v[1]), 16 * Digit(v[2]) + Digit(v[3]);
      assert [second] + [] == [second] && [first] + [second] == [first, second];
    }
  }

  lemma FourDigits(v: string)
    requires |v| == 4 && IsHex(v)
    ensures Number(v) < 0x1_0000
    ensures DecodeHex(v) == Some([Number(v) / 256, Number(v) % 256])
  {
    DecodeFour(v);
    NumberOfFour(v);
    TwoBytes(Digit(v[0]), Digit(v[1]), Digit(v[2]), Digit(v[3]));
  }

  lemma PaddedIsHexIff(w: string)
    requires |w| <= 4
    ensures |Padded(w)| == 4 && (IsHex(Padded(w)) <==> IsHex(w))
  {
    var v := Padded(w);
    assert forall i :: 0 <= i < |w| ==> v[i + 4 - |w|] == w[i];
  }

  lemma TwoBytes(a: nat, b: nat, c: nat, d: nat)
    requires a < 16 && b < 16 && c < 16 && d < 16
    ensures var n := 4096 * a + 256 * b + 16 * c + d;
            n < 0x1_0000 && n / 256 == 16 * a + b && n % 256 == 16 * c + d
  {
  }

  /** A block is decoded to the two bytes of its number, or refused. */
  lemma BlockIsNumber(w: string)
    requires |w| <= 4
    ensures IsHex(w) ==> Number(w) < 0x1_0000
    ensures DecodeHex(Padded(w)) == if IsHex(w) then Some([Number(w) / 256, Number(w) % 256]) else None
  {
    PaddedIsHexIff(w);
    if IsHex(w) {
      PaddingKeepsNumber(w);
      FourDigits(Padded(w));
    } else {
      DecodeFour(Padded(w));
    }
  }

  // ----- splitting

  function Split(v: string): (blocks: seq<string>)
    ensures blocks != []
  {
    if v == "" then [""]
    else if v[0] == ':' then [""] + Split(v[1..])
    else Glued(v[0], Split(v[1..]))
  }

  function Glued(c: char, blocks: seq<string>): (r: seq<string>)
    requires blocks != []
    ensures r != []
  {
    [[c] + blocks[0]] + blocks[1..]
  }

  predicate IsBlock(w: string) {
    forall i :: 0 <= i < |w| ==> w[i] != ':'
  }

  lemma {:induction false} SplitBlock(w: string)
    requires IsBlock(w)
    ensures Split(w) == [w]
  {
    if w == "" {
    } else {
      SplitBlock(w[1..]);
      assert [w[0]] + w[1..] == w;
    }
  }

  lemma GluedAppend(c: char, a: seq<string>, b: seq<string>)
    requires a != []
    ensures Glued(c, a + b) == Glued(c, a) + b
  {
  }

  lemma {:induction false} SplitJoined(a: string, b: string)
    ensures Split(a + ":" + b) == Split(a) + Split(b)
    decreases |a|
  {
    var v := a + ":" + b;
    if a == "" {
      assert v[1..] == b;
    } else {
      SplitJoined(a[1..], b);
      assert v[1..] == a[1..] + ":" + b && v[0] == a[0];
      if a[0] == ':' {
        assert [""] + (Split(a[1..]) + Split(b)) == [""] + Split(a[1..]) + Split(b);
      } else {
        GluedAppend(a[0], Split(a[1..]), Split(b));
      }
    }
  }

  function Join(blocks: seq<string>): string {
    if blocks == [] then ""
    else if |blocks| == 1 then blocks[0]
    else blocks[0] + ":" + Join(blocks[1..])
  }

  lemma {:induction false} SplitOfJoin(blocks: seq<string>)
    requires forall i :: 0 <= i < |blocks| ==> IsBlock(blocks[i])
    ensures Split(Join(blocks)) == if blocks == [] then [""] else blocks
  {
    if blocks == [] {
    } else if |blocks| == 1 {
      SplitBlock(blocks[0]);
    } else {
      SplitBlock(blocks[0]);
      SplitOfJoin(blocks[1..]);
      SplitJoined(blocks[0], Join(blocks[1..]));
      assert [blocks[0]] + blocks[1..] == blocks;
    }
  }

  // ----- reading

  function NonEmpty(blocks: seq<string>): (n: nat)
    ensures n <= |blocks|
  {
    if blocks == [] then 0 else (if blocks[0] != "" then 1 else 0) + NonEmpty(blocks[1..])
  }

  function Place(eui: seq<Byte>, k: int, bytes: seq<Byte>): (r: seq<Byte>)
    requires |eui| == 8 && 0 <= k < 4 && |bytes| == 2
    ensures |r| == 8
  {
    eui[2 * k := bytes[0]][2 * k + 1 := bytes[1]]
  }

  /** From the blocks that remain: an empty one jumps to the last of them. */
  function Read(rest: seq<string>, blockI: int, eui: seq<Byte>): (r: Outcome)
    requires |eui| == 8
    decreases |rest|
  {
    if rest == [] then Parsed(eui)
    else if rest[0] == "" then
      Read(rest[|rest| - NonEmpty(rest)..], 4 - NonEmpty(rest), eui)
    else if |rest[0]| > 4 then Panics
    else
      match DecodeHex(Padded(rest[0]))
      case None => BadHex
      case Some(bytes) =>
        if 0 <= blockI < 4 && |bytes| == 2 then Read(rest[1..], blockI + 1, Place(eui, blockI, bytes)) else Panics
  }

  const ZEROS: seq<Byte> := [0, 0, 0, 0, 0, 0, 0, 0]

  function ReadId6(text: string): Outcome {
    Read(Split(text), 0, ZEROS)
  }

  predicate IsWordChar(c: char) {
    '0' <= c <= '9' || 'A' <= c <= 'Z' || 'a' <= c <= 'z' || c == '_'
  }

  /** Eight pairs of word characters with dashes between them, at `i`. */
  predicate EuiAt(v: string, i: int) {
    0 <= i && i + 23 <= |v| &&
    forall k :: i <= k < i + 23 ==> if (k - i) % 3 == 2 then v[k] == '-' else IsWordChar(v[k])
  }

  predicate HasEui(v: string) {
    exists i :: 0 <= i <= |v| && EuiAt(v, i)
  }

  function WithoutDashes(v: string): string {
    if v == "" then "" else (if v[0] == '-' then "" else [v[0]]) + WithoutDashes(v[1..])
  }

  /** Texts with dashes are left to `decodeEui`, a function of another library. */
  function ReadText(text: string, decodeEui: string -> Option<Identifier>): Outcome {
    if HasEui(text) then
      match decodeEui(WithoutDashes(text))
      case None => BadEui
      case Some(e) => Parsed(e)
    else ReadId6(text)
  }

  method RemainingBlocks(blocks: seq<string>) returns (n: nat)
    ensures n == NonEmpty(blocks)
  {
    n := 0;
    for i := 0 to |blocks|
      invariant n + NonEmpty(blocks[i..]) == NonEmpty(blocks)
    {
      assert blocks[i..][1..] == blocks[i + 1..];
      if blocks[i] != "" {
        n := n + 1;
      }
    }
  }

  lemma ReadEmpty(blocks: seq<string>, i: nat, k: int, eui: seq<Byte>)
    requires |eui| == 8 && i < |blocks| && blocks[i] == ""
    ensures var n := NonEmpty(blocks[i..]);
            && i < |blocks| - n
            && Read(blocks[i..], k, eui) == Read(blocks[|blocks| - n..], 4 - n, eui)
  {
    var rest := blocks[i..];
    assert rest[|rest| - NonEmpty(rest)..] == blocks[|blocks| - NonEmpty(rest)..];
  }

  /** Whether a block ends the reading, as the `k`-th of the identifier. */
  predicate Fits(block: string, k: int) {
    |block| <= 4 && IsHex(block) && 0 <= k < 4
  }

  function Refusal(block: string): Outcome {
    if |block| <= 4 && !IsHex(block) then BadHex else Panics
  }

  function BytesOf(block: string): (b: seq<Byte>)
    requires |block| <= 4 && IsHex(block)
    ensures |b| == 2
  {
    BlockIsNumber(block);
    [Number(block) / 256, Number(block) % 256]
  }

  lemma ReadBlock(blocks: seq<string>, i: nat, k: int, eui: seq<Byte>)
    requires |eui| == 8 && i < |blocks| && blocks[i] != ""
    ensures Read(blocks[i..], k, eui) ==
            if Fits(blocks[i], k) then Read(blocks[i + 1..], k + 1, Place(eui, k, BytesOf(blocks[i])))
            else Refusal(blocks[i])
  {
    assert blocks[i..][1..] == blocks[i + 1..];
    if |blocks[i]| <= 4 {
      BlockIsNumber(blocks[i]);
    }
  }

  method UnmarshalText(text: string, decodeEui: string -> Option<Identifier>) returns (r: Outcome)
    ensures r == ReadText(text, decodeEui)
    ensures HasEui(text) && decodeEui(WithoutDashes(text)) == None ==> r == BadEui
    ensures HasEui(text) && decodeEui(WithoutDashes(text)).Some? ==> r == Parsed(decodeEui(WithoutDashes(text)).value)
    ensures !HasEui(text) ==> r == ReadId6(text)
  {
    if HasEui(text) {
      var e := decodeEui(WithoutDashes(text));
      return if e == None then BadEui else Parsed(e.value);
    }
    var eui := new Byte[8](_ => 0);
    assert eui[..] == ZEROS;
    r := ReadBlocks(Split(text), eui);
  }

  /** The loop over the blocks: an empty one moves `i` by at least one. */
  method ReadBlocks(blocks: seq<string>, eui: array<Byte>) returns (r: Outcome)
    requires eui.Length == 8
    modifies eui
    ensures r == Read(blocks, 0, old(eui[..]))
  {
    var i, blockI: int := 0, 0;
    assert blocks[0..] == blocks;
    ghost var goal := Read(blocks, 0, eui[..]);
    while i < |blocks|
      invariant 0 <= i <= |blocks|
      invariant Read(blocks[i..], blockI, eui[..]) == goal
    {
      if blocks[i] == "" {
        ReadEmpty(blocks, i, blockI, eui[..]);
        var remaining: int := RemainingBlocks(blocks[i..]);
        i := |blocks| - remaining;
        blockI := 4 - remaining;
      } else {
        ReadBlock(blocks, i, blockI, eui[..]);
        var refusal := PutBlock(blocks[i], blockI, eui);
        if refusal.Some? {
          return refusal.value;
        }
        blockI := blockI + 1;
        i := i + 1;
      }
    }
    return Parsed(eui[..]);
  }

  /** Decodes a block and writes its bytes, unless the program stops. */
  method PutBlock(block: string, blockI: int, eui: array<Byte>) returns (refusal: Option<Outcome>)
    requires eui.Length == 8 && block != ""
    modifies eui
    ensures refusal == if Fits(block, blockI) then None else Some(Refusal(block))
    ensures Fits(block, blockI) ==> eui[..] == Place(old(eui[..]), blockI, BytesOf(block))
  {
    if |block| > 4 {
      return Some(Panics);
    }
    BlockIsNumber(block);
    var b := DecodeHex("0000"[|block|..] + block);
    if b == None {
      return Some(BadHex);
    }
    if blockI < 0 || blockI >= 4 {
      return Some(Panics);
    }
    PutBytes(eui, blockI, b.value);
    return None;
  }

  method PutBytes(eui: array<Byte>, blockI: nat, b: seq<Byte>)
    requires eui.Length == 8 && blockI < 4 && |b| == 2
    modifies eui
    ensures eui[..] == Place(old(eui[..]), blockI, b)
  {
    for ii := 0 to |b|
      invariant eui[..] == if ii == 0 then old(eui[..])
                           else if ii == 1 then old(eui[..])[2 * blockI := b[0]]
                           else Place(old(eui[..]), blockI, b)
    {
      eui[blockI * 2 + ii] := b[ii];
    }
  }

  // ----- writing

  function HexOf(b: Byte): string {
    [DigitChar(b / 16), DigitChar(b % 16)]
  }

  function WrittenBlocks(e: seq<Byte>): seq<string>
    requires |e| == 8
  {
    [HexOf(e[0]) + HexOf(e[1]), HexOf(e[2]) + HexOf(e[3]), HexOf(e[4]) + HexOf(e[5]), HexOf(e[6]) + HexOf(e[7])]
  }

  function MarshalText(e: seq<Byte>): string
    requires |e| == 8
  {
    Join(WrittenBlocks(e))
  }

  function BlockOf(e: seq<Byte>, k: int): nat
    requires |e| == 8 && 0 <= k < 4
  {
    var high: nat, low: nat := e[2 * k], e[2 * k + 1];
    256 * high + low
  }

  /** One to four digits for this number: leading zeros are free. */
  predicate Writes(w: string, number: nat) {
    1 <= |w| <= 4 && IsHex(w) && Number(w) == number
  }

  ghost predicate WritesAll(blocks: seq<string>, e: seq<Byte>) {
    |blocks| == 4 && |e| == 8 && forall k :: 0 <= k < 4 ==> Writes(blocks[k], BlockOf(e, k))
  }

  /** Blocks `lo` to `hi` as "::". */
  function Shortened(blocks: seq<string>, lo: int, hi: int): string
    requires 0 <= lo <= hi <= |blocks|
  {
    Join(blocks[..lo]) + ":" + ("" + ":" + Join(blocks[hi..]))
  }

  // ----- what is read back

  lemma {:induction false} NonEmptyAppend(a: seq<string>, b: seq<string>)
    ensures NonEmpty(a + b) == NonEmpty(a) + NonEmpty(b)
    decreases |a|
  {
    if a == [] {
      assert a + b == b;
    } else {
      NonEmptyAppend(a[1..], b);
      assert (a + b)[1..] == a[1..] + b;
    }
  }

  predicate Words(blocks: seq<string>) {
    forall i :: 0 <= i < |blocks| ==> 1 <= |blocks[i]| <= 4 && IsHex(blocks[i])
  }

  lemma {:induction false} AllNonEmpty(words: seq<string>)
    requires Words(words)
    ensures NonEmpty(words) == |words|
  {
    if words != [] {
      AllNonEmpty(words[1..]);
    }
  }

  /** The identifier with these words in place of its blocks from `k` on. */
  function WithWords(eui: seq<Byte>, k: nat, words: seq<string>): (r: seq<Byte>)
    requires |eui| == 8 && k + |words| <= 4 && Words(words)
    ensures |r| == 8
    decreases |words|
  {
    if words == [] then eui
    else
      BlockIsNumber(words[0]);
      WithWords(Place(eui, k, BytesOf(words[0])), k + 1, words[1..])
  }

  lemma {:induction false} ReadWords(words: seq<string>, rest: seq<string>, k: nat, eui: seq<Byte>)
    requires |eui| == 8 && k + |words| <= 4 && Words(words)
    ensures Read(words + rest, k, eui) == Read(rest, k + |words|, WithWords(eui, k, words))
    decreases |words|
  {
    if words == [] {
      assert words + rest == rest;
    } else {
      BlockIsNumber(words[0]);
      assert (words + rest)[1..] == words[1..] + rest;
      ReadWords(words[1..], rest, k + 1, Place(eui, k, BytesOf(words[0])));
    }
  }

  lemma {:induction false} WordsAt(eui: seq<Byte>, k: nat, words: seq<string>, j: nat)
    requires |eui| == 8 && k + |words| <= 4 && Words(words) && j < 4
    ensures BlockOf(WithWords(eui, k, words), j) ==
            if k <= j < k + |words| then Number(words[j - k]) else BlockOf(eui, j)
    decreases |words|
  {
    if words != [] {
      BlockIsNumber(words[0]);
      WordsAt(Place(eui, k, BytesOf(words[0])), k + 1, words[1..], j);
    }
  }

  /** Identifiers with equal blocks are equal. */
  lemma SameBlocks(a: seq<Byte>, b: seq<Byte>)
    requires |a| == 8 && |b| == 8 && forall k :: 0 <= k < 4 ==> BlockOf(a, k) == BlockOf(b, k)
    ensures a == b
  {
    assert BlockOf(a, 0) == BlockOf(b, 0) && BlockOf(a, 1) == BlockOf(b, 1);
    assert BlockOf(a, 2) == BlockOf(b, 2) && BlockOf(a, 3) == BlockOf(b, 3);
  }

  lemma WordsAreBlocks(words: seq<string>)
    requires Words(words)
    ensures forall i :: 0 <= i < |words| ==> IsBlock(words[i])
  {
  }

  /** At most one "::": words to its left from the front, words to its right to the end. */
  lemma ReadAroundGap(left: seq<string>, right: seq<string>, gap: seq<string>)
    requires Words(left) && Words(right) && |left| <= 4 && |right| <= 4
    requires gap != [] && forall i :: 0 <= i < |gap| ==> gap[i] == ""
    ensures Read(left + (gap + right), 0, ZEROS) ==
            Parsed(WithWords(WithWords(ZEROS, 0, left), 4 - |right|, right))
  {
    ReadWords(left, gap + right, 0, ZEROS);
    ReadGap(gap, right, |left|, WithWords(ZEROS, 0, left));
  }

  lemma ReadGap(gap: seq<string>, right: seq<string>, k: int, eui: seq<Byte>)
    requires |eui| == 8 && Words(right) && |right| <= 4
    requires gap != [] && forall i :: 0 <= i < |gap| ==> gap[i] == ""
    ensures Read(gap + right, k, eui) == Parsed(WithWords(eui, 4 - |right|, right))
  {
    var rest := gap + right;
    NonEmptyAppend(gap, right);
    AllEmpty(gap);
    AllNonEmpty(right);
    assert rest[|rest| - |right|..] == right;
    ReadWords(right, [], 4 - |right|, eui);
    assert right + [] == right;
  }

  lemma {:induction false} AllEmpty(gap: seq<string>)
    requires forall i :: 0 <= i < |gap| ==> gap[i] == ""
    ensures NonEmpty(gap) == 0
  {
    if gap != [] {
      AllEmpty(gap[1..]);
    }
  }

  /** The empty blocks that "::" makes: one more at either end of the text. */
  function Gap(atStart: bool, atEnd: bool): (gap: seq<string>)
    ensures gap != [] && forall i :: 0 <= i < |gap| ==> gap[i] == ""
  {
    if atStart && atEnd then ["", "", ""] else if atStart || atEnd then ["", ""] else [""]
  }

  lemma SplitShortened(blocks: seq<string>, lo: int, hi: int)
    requires 0 <= lo <= hi <= |blocks| && Words(blocks)
    ensures Split(Shortened(blocks, lo, hi)) == blocks[..lo] + (Gap(lo == 0, hi == |blocks|) + blocks[hi..])
  {
    var left, right := blocks[..lo], blocks[hi..];
    WordsAreBlocks(left);
    WordsAreBlocks(right);
    SplitOfJoin(left);
    SplitOfJoin(right);
    SplitBlock("");
    SplitJoined("", Join(right));
    SplitJoined(Join(left), "" + ":" + Join(right));
    AroundGap(left, right);
  }

  lemma AroundGap(left: seq<string>, right: seq<string>)
    ensures var first, last := if left == [] then [""] else left, if right == [] then [""] else right;
            first + ([""] + last) == left + (Gap(left == [], right == []) + right)
  {
  }

  predicate NoDash(v: string) {
    forall i :: 0 <= i < |v| ==> v[i] != '-'
  }

  lemma {:induction false} NoDashInWords(blocks: seq<string>)
    requires Words(blocks)
    ensures NoDash(Join(blocks)) && !HasEui(Join(blocks))
  {
    if |blocks| > 1 {
      NoDashInWords(blocks[1..]);
    }
    NoDashNoEui(Join(blocks));
  }

  lemma NoDashNoEui(v: string)
    requires NoDash(v)
    ensures !HasEui(v)
  {
    forall i
      ensures !EuiAt(v, i)
    {
      assert 0 <= i && i + 23 <= |v| ==> v[i + 2] != '-' && (i + 2 - i) % 3 == 2;
    }
  }

  /** Written in full, with any leading zeros omitted, an identifier is read back. */
  lemma FullFormIsRead(blocks: seq<string>, e: seq<Byte>)
    requires WritesAll(blocks, e)
    ensures ReadId6(Join(blocks)) == Parsed(e) && !HasEui(Join(blocks))
  {
    WritesWords(blocks, e);
    NoDashInWords(blocks);
    WordsAreBlocks(blocks);
    SplitOfJoin(blocks);
    ReadWords(blocks, [], 0, ZEROS);
    assert blocks + [] == blocks;
    var r := WithWords(ZEROS, 0, blocks);
    forall k | 0 <= k < 4
      ensures BlockOf(r, k) == BlockOf(e, k)
    {
      WordsAt(ZEROS, 0, blocks, k);
    }
    SameBlocks(r, e);
  }

  lemma BlocksAroundGap(blocks: seq<string>, lo: int, hi: int, k: int)
    requires Words(blocks) && |blocks| == 4 && 0 <= lo <= hi <= 4 && 0 <= k < 4
    ensures BlockOf(WithWords(WithWords(ZEROS, 0, blocks[..lo]), hi, blocks[hi..]), k) ==
            if lo <= k < hi then 0 else Number(blocks[k])
  {
    WordsAt(WithWords(ZEROS, 0, blocks[..lo]), hi, blocks[hi..], k);
    WordsAt(ZEROS, 0, blocks[..lo], k);
  }

  lemma WritesWords(blocks: seq<string>, e: seq<Byte>)
    requires WritesAll(blocks, e)
    ensures Words(blocks) && forall k :: 0 <= k < 4 ==> Number(blocks[k]) == BlockOf(e, k)
  {
    assert forall k :: 0 <= k < 4 ==> Writes(blocks[k], BlockOf(e, k));
  }

  lemma ShortFormHasNoDash(blocks: seq<string>, lo: int, hi: int)
    requires Words(blocks) && 0 <= lo <= hi <= |blocks|
    ensures !HasEui(Shortened(blocks, lo, hi))
  {
    NoDashInWords(blocks[..lo]);
    NoDashInWords(blocks[hi..]);
    NoDashNoEui(Shortened(blocks, lo, hi));
  }

  /** With "::" for some of the blocks, exactly if those are zero. */
  lemma ShortFormIsReadIff(blocks: seq<string>, e: seq<Byte>, lo: int, hi: int)
    requires WritesAll(blocks, e) && 0 <= lo <= hi <= 4
    ensures !HasEui(Shortened(blocks, lo, hi))
    ensures ReadId6(Shortened(blocks, lo, hi)) == Parsed(e) <==> forall k :: lo <= k < hi ==> BlockOf(e, k) == 0
  {
    WritesWords(blocks, e);
    ShortFormHasNoDash(blocks, lo, hi);
    var r := ShortFormIsRead(blocks, lo, hi);
    forall k | 0 <= k < 4
      ensures BlockOf(r, k) == if lo <= k < hi then 0 else BlockOf(e, k)
    {
      assert BlockOf(r, k) == if lo <= k < hi then 0 else Number(blocks[k]);
    }
    if forall k :: lo <= k < hi ==> BlockOf(e, k) == 0 {
      SameBlocks(r, e);
    }
  }

  lemma ShortFormIsRead(blocks: seq<string>, lo: int, hi: int) returns (r: seq<Byte>)
    requires Words(blocks) && |blocks| == 4 && 0 <= lo <= hi <= 4
    ensures |r| == 8 && ReadId6(Shortened(blocks, lo, hi)) == Parsed(r)
    ensures forall k :: 0 <= k < 4 ==> BlockOf(r, k) == if lo <= k < hi then 0 else Number(blocks[k])
  {
    SplitShortened(blocks, lo, hi);
    ReadAroundGap(blocks[..lo], blocks[hi..], Gap(lo == 0, hi == 4));
    r := WithWords(WithWords(ZEROS, 0, blocks[..lo]), hi, blocks[hi..]);
    forall k | 0 <= k < 4
      ensures BlockOf(r, k) == if lo <= k < hi then 0 else Number(blocks[k])
    {
      BlocksAroundGap(blocks, lo, hi, k);
    }
  }

  lemma NumberOfBytes(a: Byte, b: Byte)
    ensures Writes(HexOf(a) + HexOf(b), 256 * a + b)
  {
    var v := HexOf(a) + HexOf(b);
    NumberOfFour(v);
  }

  lemma WrittenInFull(e: seq<Byte>)
    requires |e| == 8
    ensures WritesAll(WrittenBlocks(e), e)
  {
    NumberOfBytes(e[0], e[1]);
    NumberOfBytes(e[2], e[3]);
    NumberOfBytes(e[4], e[5]);
    NumberOfBytes(e[6], e[7]);
    var blocks := WrittenBlocks(e);
    assert Writes(blocks[0], BlockOf(e, 0)) && Writes(blocks[1], BlockOf(e, 1));
    assert Writes(blocks[2], BlockOf(e, 2)) && Writes(blocks[3], BlockOf(e, 3));
  }

  predicate IsLower(v: string) {
    forall k :: 0 <= k < |v| ==> '0' <= v[k] <= '9' || 'a' <= v[k] <= 'f' || v[k] == ':'
  }

  lemma {:induction false} LowerJoin(blocks: seq<string>)
    requires forall i :: 0 <= i < |blocks| ==> IsLower(blocks[i])
    ensures IsLower(Join(blocks))
  {
    if |blocks| > 1 {
      LowerJoin(blocks[1..]);
    }
  }

  lemma LowerBlock(a: Byte, b: Byte)
    ensures IsLower(HexOf(a) + HexOf(b))
  {
    assert forall d: nat :: d < 16 ==> IsLower([DigitChar(d)]);
  }

  /** Identifiers are written in lower case. */
  lemma MarshalledIsLower(e: seq<Byte>)
    requires |e| == 8
    ensures IsLower(MarshalText(e))
  {
    LowerBlock(e[0], e[1]);
    LowerBlock(e[2], e[3]);
    LowerBlock(e[4], e[5]);
    LowerBlock(e[6], e[7]);
    LowerJoin(WrittenBlocks(e));
  }

  /** Reading undoes writing, for every identifier. */
  lemma RoundTrip(e: seq<Byte>, decodeEui: string -> Option<Identifier>)
    requires |e| == 8
    ensures ReadText(MarshalText(e), decodeEui) == Parsed(e)
  {
    WrittenInFull(e);
    FullFormIsRead(WrittenBlocks(e), e);
  }

  // ----- dashed texts

  /** Two digits a byte, with dashes between them. */
  function Dashed(e: seq<Byte>): string {
    if e == [] then "" else if |e| == 1 then HexOf(e[0]) else HexOf(e[0]) + "-" + Dashed(e[1..])
  }

  function Digits(e: seq<Byte>): string {
    if e == [] then "" else HexOf(e[0]) + Digits(e[1..])
  }

  lemma DropOne(c: char, rest: string)
    ensures WithoutDashes([c] + rest) == (if c == '-' then "" else [c]) + WithoutDashes(rest)
  {
    assert ([c] + rest)[1..] == rest;
  }

  lemma DropPair(b: Byte, rest: string)
    ensures WithoutDashes(HexOf(b) + rest) == HexOf(b) + WithoutDashes(rest)
  {
    var c, d := DigitChar(b / 16), DigitChar(b % 16);
    assert HexOf(b) + rest == [c] + ([d] + rest) && HexOf(b) == [c] + [d];
    DropOne(c, [d] + rest);
    DropOne(d, rest);
    assert [c] + ([d] + WithoutDashes(rest)) == HexOf(b) + WithoutDashes(rest);
  }

  lemma {:induction false} DashesAreDropped(e: seq<Byte>)
    ensures WithoutDashes(Dashed(e)) == Digits(e)
  {
    if |e| == 1 {
      DropPair(e[0], "");
      assert HexOf(e[0]) + "" == HexOf(e[0]) && Digits(e[1..]) == "";
    } else if |e| > 1 {
      var rest := Dashed(e[1..]);
      DashesAreDropped(e[1..]);
      assert Dashed(e) == HexOf(e[0]) + (['-'] + rest);
      DropPair(e[0], ['-'] + rest);
      DropOne('-', rest);
      assert "" + WithoutDashes(rest) == WithoutDashes(rest);
    }
  }

  predicate Patterned(v: string) {
    forall k :: 0 <= k < |v| ==> if k % 3 == 2 then v[k] == '-' else IsWordChar(v[k])
  }

  lemma OneMorePair(c: char, d: char, rest: string)
    requires IsWordChar(c) && IsWordChar(d) && Patterned(rest)
    ensures Patterned([c, d]) && Patterned([c, d] + "-" + rest)
  {
    var v := [c, d] + "-" + rest;
    forall k | 3 <= k < |v|
      ensures if k % 3 == 2 then v[k] == '-' else IsWordChar(v[k])
    {
      assert v[k] == rest[k - 3];
    }
  }

  lemma {:induction false} DashedPattern(e: seq<Byte>)
    requires e != []
    ensures |Dashed(e)| == 3 * |e| - 1 && Patterned(Dashed(e))
  {
    var rest := if |e| == 1 then "" else Dashed(e[1..]);
    if |e| > 1 {
      DashedPattern(e[1..]);
    }
    OneMorePair(DigitChar(e[0] / 16), DigitChar(e[0] % 16), rest);
  }

  /** An identifier with dashes is passed on as its sixteen digits, so that it is read back
      if these are decoded. */
  lemma DashedFormIsRead(e: Identifier, decodeEui: string -> Option<Identifier>)
    requires decodeEui(Digits(e)) == Some(e)
    ensures ReadText(Dashed(e), decodeEui) == Parsed(e)
  {
    DashedPattern(e);
    DashesAreDropped(e);
    assert EuiAt(Dashed(e), 0);
  }

  // ----- texts that are not one of these forms

  /** Without an empty block, a text is read exactly if it has at most four blocks of one
      to four digits; missing blocks at the end count as zero. */
  lemma {:induction false} FewBlocksAreReadIff(blocks: seq<string>, k: nat, eui: seq<Byte>)
    requires |eui| == 8 && k <= 4 && forall i :: 0 <= i < |blocks| ==> blocks[i] != ""
    ensures Read(blocks, k, eui).Parsed? <==> k + |blocks| <= 4 && Words(blocks)
    ensures k + |blocks| <= 4 && Words(blocks) ==> Read(blocks, k, eui) == Parsed(WithWords(eui, k, blocks))
    decreases |blocks|
  {
    if blocks != [] && |blocks[0]| <= 4 {
      BlockIsNumber(blocks[0]);
      if IsHex(blocks[0]) && k < 4 {
        FewBlocksAreReadIff(blocks[1..], k + 1, Place(eui, k, BytesOf(blocks[0])));
        assert Words(blocks) <==> Words(blocks[1..]) by {
          assert blocks == [blocks[0]] + blocks[1..];
        }
      }
    }
  }

  /** An empty block that does not start the last ones jumps to them all the same. */
  lemma JumpPast(hidden: string, inner: seq<string>, k: int, eui: seq<Byte>)
    requires |eui| == 8 && hidden != "" && inner != [] && inner[0] == "" && NonEmpty(inner) == |inner| - 1
    ensures Read(["", hidden] + inner, k, eui) == Read(inner, k, eui)
  {
    var rest := ["", hidden] + inner;
    assert rest[1..] == [hidden] + inner && ([hidden] + inner)[1..] == inner;
    assert NonEmpty(rest) == |inner|;
    assert rest[|rest| - |inner|..] == inner;
  }

  /** A second "::" is accepted, and a single block between the two is ignored. */
  lemma SecondGapHidesABlock(left: seq<string>, hidden: string, right: seq<string>)
    requires Words(left) && hidden != "" && Words(right) && |left| <= 4 && |right| <= 4
    ensures Read(left + (["", hidden] + ([""] + right)), 0, ZEROS) ==
            Parsed(WithWords(WithWords(ZEROS, 0, left), 4 - |right|, right))
    ensures Read(left + ([""] + right), 0, ZEROS) == Read(left + (["", hidden] + ([""] + right)), 0, ZEROS)
  {
    ReadAroundGap(left, right, [""]);
    var inner := [""] + right;
    var rest := ["", hidden] + ([""] + right);
    ReadWords(left, inner, 0, ZEROS);
    ReadWords(left, rest, 0, ZEROS);
    AllNonEmpty(right);
    assert inner[1..] == right;
    JumpPast(hidden, inner, |left|, WithWords(ZEROS, 0, left));
  }

  // ----- any number of gaps

  /** A gap that is itself read jumps over as many blocks as are empty from it on. */
  ghost predicate Hidden(blocks: seq<string>, j: int)
    requires j <= |blocks|
    decreases j
  {
    exists i :: 0 <= i < j && blocks[i] == "" && !Hidden(blocks, i) && j < |blocks| - NonEmpty(blocks[i..])
  }

  predicate GapBefore(blocks: seq<string>, j: int)
    requires j <= |blocks|
  {
    exists i :: 0 <= i < j && blocks[i] == ""
  }

  /** Before the first gap blocks count from the front, after it from the end. */
  function Position(blocks: seq<string>, j: int): int
    requires j <= |blocks|
  {
    if GapBefore(blocks, j) then 4 - (|blocks| - j) else j
  }

  /** A block that is not empty and not jumped over. */
  ghost predicate IsRead(blocks: seq<string>, j: int) {
    0 <= j < |blocks| && blocks[j] != "" && !Hidden(blocks, j)
  }

  ghost predicate Acceptable(blocks: seq<string>, j: int) {
    IsRead(blocks, j) ==> |blocks[j]| <= 4 && IsHex(blocks[j]) && 0 <= Position(blocks, j) < 4
  }

  lemma AfterBlock(blocks: seq<string>, i: int)
    requires 0 <= i < |blocks| && !Hidden(blocks, i) && blocks[i] != ""
    ensures !Hidden(blocks, i + 1) && Position(blocks, i + 1) == Position(blocks, i) + 1
  {
    assert GapBefore(blocks, i + 1) <==> GapBefore(blocks, i);
  }

  lemma AfterGap(blocks: seq<string>, i: int)
    requires 0 <= i < |blocks| && !Hidden(blocks, i) && blocks[i] == ""
    ensures var next := |blocks| - NonEmpty(blocks[i..]);
            && i < next <= |blocks| && !Hidden(blocks, next)
            && Position(blocks, next) == 4 - NonEmpty(blocks[i..])
            && forall j :: i < j < next ==> Hidden(blocks, j)
  {
    ReadEmpty(blocks, i, 0, ZEROS);
    var next := |blocks| - NonEmpty(blocks[i..]);
    assert GapBefore(blocks, next);
    forall j | i < j < next
      ensures Hidden(blocks, j)
    {
    }
    forall k | 0 <= k < i && blocks[k] == "" && !Hidden(blocks, k)
      ensures |blocks| - NonEmpty(blocks[k..]) <= i
    {
    }
  }

  ghost predicate AllAcceptable(blocks: seq<string>, i: int) {
    forall j :: i <= j < |blocks| ==> Acceptable(blocks, j)
  }

  /** Block `j` is the first that is read and not acceptable, from block `i` on. */
  ghost predicate FirstBad(blocks: seq<string>, i: int, j: int) {
    i <= j < |blocks| && !Acceptable(blocks, j) && forall m :: i <= m < j ==> Acceptable(blocks, m)
  }

  /** A block of up to four characters that are not all digits is an error; any other that
      is not acceptable is too long or has no place left, and stops the program. */
  ghost predicate Blames(r: Outcome, blocks: seq<string>, i: int)
    requires 0 <= i
  {
    forall j :: FirstBad(blocks, i, j) ==> r == if |blocks[j]| <= 4 && !IsHex(blocks[j]) then BadHex else Panics
  }

  /** The text is accepted exactly if all blocks that are read are acceptable, and
      otherwise the first that is not tells how it fails. */
  ghost predicate Judged(r: Outcome, blocks: seq<string>, i: int)
    requires 0 <= i
  {
    (r.Parsed? <==> AllAcceptable(blocks, i)) && Blames(r, blocks, i)
  }

  /** So it is from every block that is read on. */
  lemma {:induction false} ReadFromIff(blocks: seq<string>, i: int, k: int, eui: seq<Byte>, r: Outcome)
    requires 0 <= i <= |blocks| && |eui| == 8 && !Hidden(blocks, i) && k == Position(blocks, i)
    requires r == Read(blocks[i..], k, eui)
    ensures Judged(r, blocks, i)
    decreases |blocks| - i, 1
  {
    if i < |blocks| {
      if blocks[i] == "" {
        ReadGapIff(blocks, i, k, eui, r);
      } else {
        ReadBlockIff(blocks, i, k, eui, r);
      }
    }
  }

  lemma {:induction false} ReadGapIff(blocks: seq<string>, i: int, k: int, eui: seq<Byte>, r: Outcome)
    requires 0 <= i < |blocks| && |eui| == 8 && !Hidden(blocks, i) && blocks[i] == ""
    requires r == Read(blocks[i..], k, eui)
    ensures Judged(r, blocks, i)
    decreases |blocks| - i, 0
  {
    var next := Jump(blocks, i, k, eui, r);
    ReadFromIff(blocks, next, 4 - (|blocks| - next), eui, r);
    JudgedAfterGap(r, blocks, i, next);
  }

  lemma {:induction false} ReadBlockIff(blocks: seq<string>, i: int, k: int, eui: seq<Byte>, r: Outcome)
    requires 0 <= i < |blocks| && |eui| == 8 && !Hidden(blocks, i) && k == Position(blocks, i) && blocks[i] != ""
    requires r == Read(blocks[i..], k, eui)
    ensures Judged(r, blocks, i)
    decreases |blocks| - i, 0
  {
    ReadBlock(blocks, i, k, eui);
    AfterBlock(blocks, i);
    if Fits(blocks[i], k) {
      ReadFromIff(blocks, i + 1, k + 1, Place(eui, k, BytesOf(blocks[i])), r);
    }
    JudgedAfterBlock(r, blocks, i);
  }

  lemma Jump(blocks: seq<string>, i: int, k: int, eui: seq<Byte>, r: Outcome) returns (next: int)
    requires 0 <= i < |blocks| && |eui| == 8 && !Hidden(blocks, i) && blocks[i] == ""
    requires r == Read(blocks[i..], k, eui)
    ensures i < next <= |blocks| && r == Read(blocks[next..], 4 - (|blocks| - next), eui)
    ensures !Hidden(blocks, next) && Position(blocks, next) == 4 - (|blocks| - next)
    ensures forall j :: i < j < next ==> Hidden(blocks, j)
  {
    next := |blocks| - NonEmpty(blocks[i..]);
    AfterGap(blocks, i);
    ReadEmpty(blocks, i, k, eui);
  }

  lemma JudgedAfterBlock(r: Outcome, blocks: seq<string>, i: int)
    requires 0 <= i < |blocks| && !Hidden(blocks, i) && blocks[i] != ""
    requires if Fits(blocks[i], Position(blocks, i)) then Judged(r, blocks, i + 1) else r == Refusal(blocks[i])
    ensures Judged(r, blocks, i)
  {
    assert IsRead(blocks, i);
    assert Acceptable(blocks, i) <==> Fits(blocks[i], Position(blocks, i));
    assert forall j :: FirstBad(blocks, i, j) ==> j == i || FirstBad(blocks, i + 1, j);
  }

  lemma JudgedAfterGap(r: Outcome, blocks: seq<string>, i: int, next: int)
    requires 0 <= i < next <= |blocks| && blocks[i] == "" && forall j :: i < j < next ==> Hidden(blocks, j)
    requires Judged(r, blocks, next)
    ensures Judged(r, blocks, i)
  {
    assert forall j :: i <= j < next ==> Acceptable(blocks, j);
    assert forall j :: FirstBad(blocks, i, j) ==> FirstBad(blocks, next, j);
  }

  /** A text with any number of gaps is read exactly if each of its blocks is jumped over
      or is a word for one of the four places. Otherwise the first block that is neither
      tells how it fails. */
  lemma GapsAreReadIff(text: string)
    ensures ReadId6(text).Parsed? <==> AllAcceptable(Split(text), 0)
    ensures Blames(ReadId6(text), Split(text), 0)
  {
    var blocks := Split(text);
    assert blocks[0..] == blocks && !GapBefore(blocks, 0);
    ReadFromIff(blocks, 0, 0, ZEROS, ReadId6(text));
  }
}
