/**
 The two ids computed from a disc's table of contents: tools/cd_toc.py.

 The digest is a parameter: any function from text to bytes.
 */
module DiscIds {
  import opened Decimal
  import opened DiscToc

  // ----------------------------------------------------------------- hexadecimal

  function HexDigit(d: nat): (c: char)
    requires d < 16
    ensures (d < 10 ==> '0' <= c <= '9') && (d >= 10 ==> 'A' <= c <= 'F')
  {
    if d < 10 then (48 + d) as char else (55 + d) as char
  }

  function DigitValue(c: char): nat
  {
    if '0' <= c <= '9' then c as int - 48 else if 'A' <= c <= 'F' then c as int - 55 else 0
  }

  function Hex(n: nat): (s: string)
    ensures s != ""
  {
    if n < 16 then [HexDigit(n)] else Hex(n / 16) + [HexDigit(n % 16)]
  }

  function Zeros(k: nat): (s: string)
    ensures |s| == k && forall i :: 0 <= i < k ==> s[i] == '0'
  {
    seq(k, _ => '0')
  }

  /** %0wX of a number that is not negative. */
  function Padded(n: nat, w: nat): (s: string)
    ensures |s| >= w && |s| >= |Hex(n)|
  {
    if |Hex(n)| < w then Zeros(w - |Hex(n)|) + Hex(n) else Hex(n)
  }

  /** What a hexadecimal text stands for. */
  function Value(s: string): nat
  {
    if s == "" then 0 else Value(s[..|s| - 1]) * 16 + DigitValue(s[|s| - 1])
  }

  function Power(w: nat): nat
  {
    if w == 0 then 1 else 16 * Power(w - 1)
  }

  lemma {:induction false} HexFits(n: nat, w: nat)
    requires w > 0 && n < Power(w)
    ensures |Hex(n)| <= w
  {
    if n >= 16 {
      assert w > 1 by {
        assert Power(0) == 1 && Power(1) == 16;
      }
      HexFits(n / 16, w - 1);
    }
  }

  lemma {:induction false} ValueOfHex(n: nat)
    ensures Value(Hex(n)) == n
  {
    if n >= 16 {
      ValueOfHex(n / 16);
      assert (Hex(n / 16) + [HexDigit(n % 16)])[..|Hex(n / 16)|] == Hex(n / 16);
    } else {
      assert [HexDigit(n)][..0] == "";
    }
  }

  lemma {:induction false} ValueAfterZeros(k: nat, s: string)
    ensures Value(Zeros(k) + s) == Value(s)
  {
    if s != "" {
      var n := |s| - 1;
      assert (Zeros(k) + s)[..|Zeros(k) + s| - 1] == Zeros(k) + s[..n];
      ValueAfterZeros(k, s[..n]);
    } else {
      assert Zeros(k) + s == Zeros(k);
      ZerosAreNothing(k);
    }
  }

  lemma {:induction false} ZerosAreNothing(k: nat)
    ensures Value(Zeros(k)) == 0
  {
    if k > 0 {
      assert Zeros(k)[..k - 1] == Zeros(k - 1);
      ZerosAreNothing(k - 1);
    }
  }

  /** A number that fits its width is written in exactly that width, and can be read back. */
  lemma PaddedReads(n: nat, w: nat)
    requires w > 0 && n < Power(w)
    ensures |Padded(n, w)| == w && Value(Padded(n, w)) == n
  {
    HexFits(n, w);
    ValueOfHex(n);
    if |Hex(n)| < w {
      ValueAfterZeros(w - |Hex(n)|, Hex(n));
    }
  }

  // ---------------------------------------------------------- the MusicBrainz text

  const SLOTS := 99

  /** The first 99 offsets, zero where there is no track. */
  function Slot(os: seq<nat>, i: nat): nat
  {
    if i < |os| then os[i] else 0
  }

  function SlotsText(os: seq<nat>, k: nat): string
  {
    if k == 0 then "" else SlotsText(os, k - 1) + Padded(Slot(os, k - 1), 8)
  }

  /** The text that is hashed: first and last track, leadout, and 99 offsets. */
  function Text(os: seq<nat>, leadout: nat): string
  {
    Padded(1, 2) + Padded(|os|, 2) + Padded(leadout, 8) + SlotsText(os, SLOTS)
  }

  /** Sector numbers of 32 bits, of any count of tracks. */
  ghost predicate Words(os: seq<nat>, leadout: nat)
  {
    leadout < 0x1_0000_0000 && forall i :: 0 <= i < |os| ==> os[i] < 0x1_0000_0000
  }

  /** Up to 99 tracks, and sector numbers of 32 bits. */
  ghost predicate Fits(os: seq<nat>, leadout: nat)
  {
    |os| <= SLOTS && Words(os, leadout)
  }

  lemma Powers()
    ensures Power(2) == 256 && Power(8) == 0x1_0000_0000
  {
    assert Power(0) == 1 && Power(1) == 16 && Power(2) == 256;
    assert Power(3) == 4096 && Power(4) == 65536 && Power(5) == 1048576;
    assert Power(6) == 16777216 && Power(7) == 268435456;
  }

  /** Reading a slot back. */
  function ReadSlot(text: string, i: nat): nat
    requires 8 * i + 8 <= |text|
  {
    Value(text[8 * i..8 * i + 8])
  }

  lemma {:induction false} SlotsRead(os: seq<nat>, k: nat)
    requires forall i :: 0 <= i < |os| ==> os[i] < 0x1_0000_0000
    ensures |SlotsText(os, k)| == 8 * k
    ensures forall i :: 0 <= i < k ==> ReadSlot(SlotsText(os, k), i) == Slot(os, i)
  {
    hide Value;
    hide Padded;
    hide ReadSlot;
    if k > 0 {
      SlotsRead(os, k - 1);
      Powers();
      PaddedReads(Slot(os, k - 1), 8);
      var init, last := SlotsText(os, k - 1), Padded(Slot(os, k - 1), 8);
      forall i | 0 <= i < k ensures ReadSlot(init + last, i) == Slot(os, i) {
        SlotOfLonger(init, last, k - 1, i);
      }
    }
  }

  lemma SliceOfFirst(a: string, b: string, lo: nat, hi: nat)
    requires lo <= hi <= |a|
    ensures (a + b)[lo..hi] == a[lo..hi]
  {
  }

  lemma SliceOfSecond(a: string, b: string)
    ensures (a + b)[|a|..|a| + |b|] == b
  {
  }

  lemma SlotOfLonger(init: string, last: string, n: nat, i: nat)
    requires |init| == 8 * n && |last| == 8 && i <= n
    ensures ReadSlot(init + last, i) == if i < n then ReadSlot(init, i) else Value(last)
  {
    hide Value;
    if i < n {
      SliceOfFirst(init, last, 8 * i, 8 * i + 8);
    } else {
      SliceOfSecond(init, last);
    }
  }

  /** The text read back: leadout and offsets. */
  function ReadText(text: string): (seq<nat>, nat)
    requires |text| == 12 + 8 * SLOTS
  {
    var n := Value(text[2..4]);
    (seq(if n <= SLOTS then n else SLOTS, i requires 0 <= i < SLOTS => ReadSlot(text[12..], i)), Value(text[4..12]))
  }

  lemma FirstTrack()
    ensures Padded(1, 2) == "01"
  {
    assert Hex(1) == [HexDigit(1)] && Zeros(1) == "0";
  }

  /** Up to 99 tracks, the text names the first track as 1, gives back what else it was made of, and has zeros after. */
  lemma TextRoundTrip(os: seq<nat>, leadout: nat)
    requires Fits(os, leadout)
    ensures |Text(os, leadout)| == 12 + 8 * SLOTS
    ensures Text(os, leadout)[..2] == "01" && ReadText(Text(os, leadout)) == (os, leadout)
    ensures forall i :: |os| <= i < SLOTS ==> ReadSlot(Text(os, leadout)[12..], i) == 0
  {
    Powers();
    FirstTrack();
    PaddedReads(1, 2);
    PaddedReads(|os|, 2);
    PaddedReads(leadout, 8);
    SlotsRead(os, SLOTS);
    var text := Text(os, leadout);
    TextParts(Padded(1, 2), Padded(|os|, 2), Padded(leadout, 8), SlotsText(os, SLOTS));
    var read := ReadText(text).0;
    forall i | 0 <= i < |os| ensures read[i] == os[i] {
      assert ReadSlot(SlotsText(os, SLOTS), i) == Slot(os, i);
    }
    assert read == os;
  }

  lemma TextParts(a: string, b: string, c: string, d: string)
    requires |a| == 2 && |b| == 2 && |c| == 8
    ensures var t := a + b + c + d; t[..2] == a && t[2..4] == b && t[4..12] == c && t[12..] == d
  {
  }

  lemma TextInjective(os: seq<nat>, leadout: nat, os': seq<nat>, leadout': nat)
    requires Fits(os, leadout) && Fits(os', leadout') && Text(os, leadout) == Text(os', leadout')
    ensures os == os' && leadout == leadout'
  {
    TextRoundTrip(os, leadout);
    TextRoundTrip(os', leadout');
  }

  /** From the hundredth track on, an offset leaves no trace in the text. */
  lemma HundredthTrackUnseen(os: seq<nat>, x: nat, y: nat, leadout: nat)
    requires |os| >= SLOTS
    ensures Text(os + [x], leadout) == Text(os + [y], leadout)
  {
    hide SlotsText;
    hide Padded;
    SameSlots(os + [x], os + [y], SLOTS);
    assert |os + [x]| == |os + [y]|;
  }

  lemma {:induction false} SameSlots(os: seq<nat>, os': seq<nat>, k: nat)
    requires forall i :: 0 <= i < k ==> Slot(os, i) == Slot(os', i)
    ensures SlotsText(os, k) == SlotsText(os', k)
  {
    if k > 0 {
      SameSlots(os, os', k - 1);
    }
  }

  /** No other disc of 32-bit sectors has this disc's text. */
  ghost predicate TextTells(os: seq<nat>, leadout: nat)
  {
    forall os': seq<nat>, leadout': nat ::
      Words(os', leadout') && Text(os', leadout') == Text(os, leadout) ==> os' == os && leadout' == leadout
  }

  /** What is written in w digits is below the w-th power. */
  lemma {:induction false} HexShort(n: nat, w: nat)
    requires |Hex(n)| <= w
    ensures n < Power(w)
  {
    assert Power(w) == 16 * Power(w - 1);
    if n >= 16 {
      HexShort(n / 16, w - 1);
    } else {
      PowerPositive(w - 1);
    }
  }

  lemma {:induction false} PowerPositive(w: nat)
    ensures Power(w) >= 1
  {
    if w > 0 {
      PowerPositive(w - 1);
    }
  }

  /** A text of the usual length has a count of two digits, which can be read back. */
  lemma CountReads(os: seq<nat>, leadout: nat)
    requires Words(os, leadout) && |Text(os, leadout)| == 12 + 8 * SLOTS
    ensures |os| == Value(Text(os, leadout)[2..4])
  {
    hide Value;
    hide Padded;
    hide Hex;
    Powers();
    PaddedReads(1, 2);
    PaddedReads(leadout, 8);
    SlotsRead(os, SLOTS);
    HexShort(|os|, 2);
    PaddedReads(|os|, 2);
    TextParts(Padded(1, 2), Padded(|os|, 2), Padded(leadout, 8), SlotsText(os, SLOTS));
  }

  /** A disc of up to 99 tracks shares its text with no disc whatever, however many tracks that has. */
  lemma TextStandsAlone(os: seq<nat>, leadout: nat, os': seq<nat>, leadout': nat)
    requires Fits(os, leadout) && Words(os', leadout') && Text(os', leadout') == Text(os, leadout)
    ensures os' == os && leadout' == leadout
  {
    hide Value;
    hide Text;
    TextRoundTrip(os, leadout);
    CountReads(os, leadout);
    CountReads(os', leadout');
    TextInjective(os', leadout', os, leadout);
  }

  /** A disc of more than 99 tracks shares its text with one whose last track starts elsewhere. */
  lemma LastTrackUntold(os: seq<nat>, leadout: nat)
    requires Words(os, leadout) && |os| > SLOTS
    ensures !TextTells(os, leadout)
  {
    hide Text;
    var init, x := os[..|os| - 1], os[|os| - 1];
    var y := if x == 0 then 1 else 0;
    HundredthTrackUnseen(init, x, y, leadout);
    assert os == init + [x];
    assert Words(init + [y], leadout);
    assert (init + [y])[|init|] != os[|init|];
  }

  /** The text tells a disc from every other exactly when the disc has no more than 99 tracks. */
  lemma TextTellsIff(os: seq<nat>, leadout: nat)
    requires Words(os, leadout)
    ensures TextTells(os, leadout) <==> |os| <= SLOTS
  {
    hide Text;
    hide Words;
    if |os| > SLOTS {
      LastTrackUntold(os, leadout);
    } else {
      assert Fits(os, leadout);
      forall os': seq<nat>, leadout': nat | Words(os', leadout') && Text(os', leadout') == Text(os, leadout)
        ensures os' == os && leadout' == leadout
      {
        TextStandsAlone(os, leadout, os', leadout');
      }
    }
  }

  // ---------------------------------------------------------------------- base64

  type Byte = b: int | 0 <= b < 256

  function Letter(v: nat): char
    requires v < 64
  {
    if v < 26 then (65 + v) as char
    else if v < 52 then (71 + v) as char
    else if v < 62 then (v - 4) as char
    else if v == 62 then '+'
    else '/'
  }

  /** The alphabet of section 4 of RFC 4648: capitals, small letters, digits, plus and slash. */
  lemma LetterIs(v: nat)
    requires v < 64
    ensures v < 26 ==> Letter(v) as int - 'A' as int == v
    ensures 26 <= v < 52 ==> Letter(v) as int - 'a' as int == v - 26
    ensures 52 <= v < 62 ==> Letter(v) as int - '0' as int == v - 52
    ensures Letter(62) == '+' && Letter(63) == '/'
  {
  }

  function Sextet(c: char): nat
  {
    if 'A' <= c <= 'Z' then c as int - 65
    else if 'a' <= c <= 'z' then c as int - 71
    else if '0' <= c <= '9' then c as int + 4
    else if c == '+' then 62
    else 63
  }

  /** Three bytes in four letters; a last group of one or two is padded. */
  function Base64(bs: seq<Byte>): string
  {
    if bs == [] then ""
    else if |bs| == 1 then [Letter(bs[0] / 4), Letter(bs[0] % 4 * 16), '=', '=']
    else if |bs| == 2 then [Letter(bs[0] / 4), Letter(bs[0] % 4 * 16 + bs[1] / 16), Letter(bs[1] % 16 * 4), '=']
    else Group(bs[0], bs[1], bs[2]) + Base64(bs[3..])
  }

  function Group(x: Byte, y: Byte, z: Byte): (s: string)
    ensures |s| == 4
  {
    [Letter(x / 4), Letter(x % 4 * 16 + y / 16), Letter(y % 16 * 4 + z / 64), Letter(z % 64)]
  }

  function Unbase64(s: string): seq<int>
    decreases |s|
  {
    if |s| < 4 then []
    else
      var (a, b, c, d) := (Sextet(s[0]), Sextet(s[1]), Sextet(s[2]), Sextet(s[3]));
      if s[2] == '=' then [a * 4 + b / 16]
      else if s[3] == '=' then [a * 4 + b / 16, b % 16 * 16 + c / 4]
      else [a * 4 + b / 16, b % 16 * 16 + c / 4, c % 4 * 64 + d] + Unbase64(s[4..])
  }

  lemma LetterReads(v: nat)
    requires v < 64
    ensures Sextet(Letter(v)) == v && Letter(v) != '='
  {
  }

  /** The bytes of a group, out of its four sextets. */
  lemma GroupReads(x: Byte, y: Byte, z: Byte)
    ensures x / 4 < 64 && x % 4 * 16 + y / 16 < 64 && y % 16 * 4 + z / 64 < 64 && z % 64 < 64
    ensures x / 4 * 4 + (x % 4 * 16 + y / 16) / 16 == x
    ensures (x % 4 * 16 + y / 16) % 16 * 16 + (y % 16 * 4 + z / 64) / 4 == y
    ensures (y % 16 * 4 + z / 64) % 4 * 64 + z % 64 == z
  {
  }

  lemma FourLetters(p: nat, q: nat, r: nat, u: nat, rest: string)
    requires p < 64 && q < 64 && r < 64 && u < 64
    ensures Unbase64([Letter(p), Letter(q), Letter(r), Letter(u)] + rest)
         == [p * 4 + q / 16, q % 16 * 16 + r / 4, r % 4 * 64 + u] + Unbase64(rest)
  {
    LetterReads(p);
    LetterReads(q);
    LetterReads(r);
    LetterReads(u);
    hide Letter;
    hide Sextet;
    assert ([Letter(p), Letter(q), Letter(r), Letter(u)] + rest)[4..] == rest;
  }

  lemma FullGroup(x: Byte, y: Byte, z: Byte, rest: string)
    ensures Unbase64(Group(x, y, z) + rest) == [x, y, z] + Unbase64(rest)
  {
    GroupReads(x, y, z);
    FourLetters(x / 4, x % 4 * 16 + y / 16, y % 16 * 4 + z / 64, z % 64, rest);
    hide Letter;
    hide Unbase64;
  }

  lemma TwoLetters(p: nat, q: nat)
    requires p < 64 && q < 64
    ensures Unbase64([Letter(p), Letter(q), '=', '=']) == [p * 4 + q / 16]
  {
    LetterReads(p);
    LetterReads(q);
    hide Letter;
    hide Sextet;
  }

  lemma ThreeLetters(p: nat, q: nat, r: nat)
    requires p < 64 && q < 64 && r < 64
    ensures Unbase64([Letter(p), Letter(q), Letter(r), '=']) == [p * 4 + q / 16, q % 16 * 16 + r / 4]
  {
    LetterReads(p);
    LetterReads(q);
    LetterReads(r);
    hide Letter;
    hide Sextet;
  }

  lemma LastOne(x: Byte)
    ensures Unbase64(Base64([x])) == [x]
  {
    hide Letter;
    hide Unbase64;
    GroupReads(x, 0, 0);
    TwoLetters(x / 4, x % 4 * 16);
  }

  lemma LastTwo(x: Byte, y: Byte)
    ensures Unbase64(Base64([x, y])) == [x, y]
  {
    hide Letter;
    hide Unbase64;
    GroupReads(x, y, 0);
    ThreeLetters(x / 4, x % 4 * 16 + y / 16, y % 16 * 4);
  }

  lemma {:induction false} Base64RoundTrip(bs: seq<Byte>)
    ensures Unbase64(Base64(bs)) == bs
    decreases |bs|
  {
    hide Letter;
    hide Group;
    if |bs| == 1 {
      assert bs == [bs[0]];
      LastOne(bs[0]);
    } else if |bs| == 2 {
      assert bs == [bs[0], bs[1]];
      LastTwo(bs[0], bs[1]);
    } else if bs != [] {
      Base64RoundTrip(bs[3..]);
      FullGroup(bs[0], bs[1], bs[2], Base64(bs[3..]));
      assert bs == [bs[0], bs[1], bs[2]] + bs[3..];
    }
  }

  /** The letters a URL does not take, replaced. */
  function Remapped(c: char): char
  {
    if c == '+' then '.' else if c == '/' then '_' else if c == '=' then '-' else c
  }

  function Remap(s: string): (r: string)
    ensures |r| == |s| && forall i :: 0 <= i < |s| ==> r[i] == Remapped(s[i])
  {
    seq(|s|, i requires 0 <= i < |s| => Remapped(s[i]))
  }

  function Unremapped(c: char): char
  {
    if c == '.' then '+' else if c == '_' then '/' else if c == '-' then '=' else c
  }

  function Unremap(s: string): (r: string)
    ensures |r| == |s| && forall i :: 0 <= i < |s| ==> r[i] == Unremapped(s[i])
  {
    seq(|s|, i requires 0 <= i < |s| => Unremapped(s[i]))
  }

  /** No letter of the alphabet is one of the replacements. */
  predicate Plain(c: char)
  {
    c != '.' && c != '_' && c != '-'
  }

  lemma {:induction false} Base64Plain(bs: seq<Byte>)
    ensures forall i :: 0 <= i < |Base64(bs)| ==> Plain(Base64(bs)[i])
    decreases |bs|
  {
    if |bs| > 2 {
      Base64Plain(bs[3..]);
    }
  }

  /** The three letters that a URL does not take are the three replaced, each by its own, and the bytes can be read. */
  lemma RemapRoundTrip(bs: seq<Byte>)
    ensures Unbase64(Unremap(Remap(Base64(bs)))) == bs
    ensures forall i :: 0 <= i < |Base64(bs)| ==>
      var c, r := Base64(bs)[i], Remap(Base64(bs))[i];
      && r != '+' && r != '/' && r != '='
      && (r == '.' <==> c == '+') && (r == '_' <==> c == '/') && (r == '-' <==> c == '=')
      && (r != '.' && r != '_' && r != '-' ==> r == c)
  {
    Base64Plain(bs);
    Base64RoundTrip(bs);
    assert Unremap(Remap(Base64(bs))) == Base64(bs);
  }

  /** The MusicBrainz disc id, for a digest. */
  function MusicBrainzId(digest: string -> seq<Byte>, os: seq<nat>, leadout: nat): string
  {
    Remap(Base64(digest(Text(os, leadout))))
  }

  /** An id has no letter a URL does not take, and gives back the digest of the disc's text. */
  lemma IdReads(digest: string -> seq<Byte>, os: seq<nat>, leadout: nat)
    ensures Unbase64(Unremap(MusicBrainzId(digest, os, leadout))) == digest(Text(os, leadout))
    ensures forall i :: 0 <= i < |MusicBrainzId(digest, os, leadout)| ==>
      MusicBrainzId(digest, os, leadout)[i] !in {'+', '/', '='}
  {
    hide Text;
    RemapRoundTrip(digest(Text(os, leadout)));
  }

  /** Two discs share an id only if they are one disc, or the digest takes two texts for one. */
  lemma SharedIdMeans(digest: string -> seq<Byte>, os: seq<nat>, leadout: nat, os': seq<nat>, leadout': nat)
    requires Fits(os, leadout) && Fits(os', leadout')
    requires MusicBrainzId(digest, os, leadout) == MusicBrainzId(digest, os', leadout')
    ensures (os == os' && leadout == leadout')
         || (Text(os, leadout) != Text(os', leadout') && digest(Text(os, leadout)) == digest(Text(os', leadout')))
  {
    RemapRoundTrip(digest(Text(os, leadout)));
    RemapRoundTrip(digest(Text(os', leadout')));
    if Text(os, leadout) == Text(os', leadout') {
      TextInjective(os, leadout, os', leadout');
    }
  }

  // ------------------------------------------------------------------------ CDDB

  function DigitSum(n: nat): nat
  {
    if n == 0 then 0 else n % 10 + DigitSum(n / 10)
  }

  /** The digits of a decimal text, added. */
  ghost function CharSum(s: string): int
  {
    if s == "" then 0 else CharSum(s[..|s| - 1]) + s[|s| - 1] as int - '0' as int
  }

  /** The digit sum is that of the digits the number is written with. */
  lemma {:induction false} DigitSumIs(n: nat)
    ensures DigitSum(n) == CharSum(Digits(n)) && Reading(Digits(n)) == n
  {
    var s := Digits(n);
    DigitsRead(n);
    if n >= 10 {
      DigitSumIs(n / 10);
      assert s[..|s| - 1] == Digits(n / 10);
    } else {
      assert s[..|s| - 1] == "" && DigitSum(n / 10) == 0;
    }
  }

  method SumDigits(n: nat) returns (s: nat)
    ensures s == DigitSum(n)
  {
    var left := n;
    s := 0;
    while left > 0
      invariant s + DigitSum(left) == DigitSum(n)
    {
      s := s + left % 10;
      left := left / 10;
    }
  }

  /** The bitwise or of two numbers that are not negative. */
  function BitOr(a: nat, b: nat): nat
    decreases a + b
  {
    if a == 0 && b == 0 then 0
    else 2 * BitOr(a / 2, b / 2) + (if a % 2 == 1 || b % 2 == 1 then 1 else 0)
  }

  function Two(k: nat): (p: nat)
    ensures p > 0
  {
    if k == 0 then 1 else 2 * Two(k - 1)
  }

  /** A number shifted past another is added to it. */
  lemma {:induction false} OrIsSum(a: nat, k: nat, b: nat)
    requires b < Two(k)
    ensures BitOr(a * Two(k), b) == a * Two(k) + b
    decreases k
  {
    if k == 0 {
      OrZero(a);
    } else {
      var h := a * Two(k - 1);
      assert a * Two(k) == 2 * h;
      OrIsSum(a, k - 1, b / 2);
      assert (2 * h) / 2 == h && (2 * h) % 2 == 0;
    }
  }

  lemma {:induction false} OrZero(a: nat)
    ensures BitOr(a, 0) == a
    decreases a
  {
    if a > 0 {
      OrZero(a / 2);
    }
  }

  /** The digit sums of the tracks' starting seconds. */
  function SecondSums(os: seq<nat>): nat
  {
    if os == [] then 0 else SecondSums(os[..|os| - 1]) + DigitSum(os[|os| - 1] / 75)
  }

  method SumSeconds(os: seq<nat>) returns (n: nat)
    ensures n == SecondSums(os)
  {
    n := 0;
    for i := 0 to |os|
      invariant n == SecondSums(os[..i])
    {
      assert os[..i + 1][..i] == os[..i];
      var d := SumDigits(os[i] / 75);
      n := n + d;
    }
    assert os[..|os|] == os;
  }

  /** The disc's length in seconds, from the first track to the leadout. */
  function Seconds(os: seq<nat>, leadout: int): int
    requires os != []
  {
    leadout / 75 - os[0] / 75
  }

  /** The low 32 bits of the three fields put together; t is taken in two's complement. */
  function CddbValue(sum: nat, t: int, count: nat): nat
  {
    BitOr(BitOr(sum % 0xFF * 0x100_0000, t % 0x100_0000 * 0x100), count % 0x1_0000_0000)
  }

  /** The or of two numbers, cut at the same bit, is the ors of the parts. */
  lemma {:induction false} OrInParts(k: nat, a: nat, low: nat, b: nat, low': nat)
    requires low < Two(k) && low' < Two(k)
    ensures BitOr(a * Two(k) + low, b * Two(k) + low') == BitOr(a, b) * Two(k) + BitOr(low, low')
    ensures BitOr(low, low') < Two(k)
    decreases k
  {
    hide BitOr;
    if k == 0 {
      assert Two(0) == 1 && low == 0 && low' == 0;
      OrZero(0);
    } else {
      OrInParts(k - 1, a, low / 2, b, low' / 2);
      var p := Two(k - 1);
      assert Joined(a, p, low / 2) == a * p + low / 2 && Joined(a, 2 * p, low) == a * Two(k) + low;
      assert Joined(b, p, low' / 2) == b * p + low' / 2 && Joined(b, 2 * p, low') == b * Two(k) + low';
      OrTwice(a, low, b, low', p);
    }
  }

  /** A number whose high part is a, in units of p. */
  function Joined(a: nat, p: nat, low: nat): (n: nat)
    ensures n == a * p + low
  {
    assert a * p >= 0;
    a * p + low
  }

  lemma OrTwice(a: nat, low: nat, b: nat, low': nat, p: nat)
    requires BitOr(Joined(a, p, low / 2), Joined(b, p, low' / 2)) == Joined(BitOr(a, b), p, BitOr(low / 2, low' / 2))
    requires BitOr(low / 2, low' / 2) < p
    ensures BitOr(Joined(a, 2 * p, low), Joined(b, 2 * p, low')) == Joined(BitOr(a, b), 2 * p, BitOr(low, low'))
    ensures BitOr(low, low') < 2 * p
  {
    hide BitOr;
    Halved(a, p, low);
    Halved(b, p, low');
    OrOneMoreBit(Joined(a, 2 * p, low), low, Joined(b, 2 * p, low'), low', BitOr(a, b), p);
  }

  lemma OrOneMoreBit(x: nat, low: nat, y: nat, low': nat, o: nat, p: nat)
    requires x % 2 == low % 2 && y % 2 == low' % 2
    requires BitOr(x / 2, y / 2) == o * p + BitOr(low / 2, low' / 2) && BitOr(low / 2, low' / 2) < p
    ensures BitOr(x, y) == o * (2 * p) + BitOr(low, low') && BitOr(low, low') < 2 * p
  {
    hide BitOr;
    OrStep(x, y);
    OrStep(low, low');
    Assemble(BitOr(x, y), BitOr(x / 2, y / 2), BitOr(low, low'), BitOr(low / 2, low' / 2), o, p,
             if low % 2 == 1 || low' % 2 == 1 then 1 else 0);
  }

  lemma Assemble(all: nat, half: nat, low: nat, lowHalf: nat, o: nat, p: nat, bit: nat)
    requires all == 2 * half + bit && low == 2 * lowHalf + bit && half == o * p + lowHalf && lowHalf < p && bit <= 1
    ensures all == o * (2 * p) + low && low < 2 * p
  {
    assert o * (2 * p) == 2 * (o * p);
  }

  lemma OrStep(a: nat, b: nat)
    ensures BitOr(a, b) == 2 * BitOr(a / 2, b / 2) + (if a % 2 == 1 || b % 2 == 1 then 1 else 0)
  {
  }

  lemma Halved(a: nat, p: nat, low: nat)
    ensures (a * (2 * p) + low) / 2 == a * p + low / 2 && (a * (2 * p) + low) % 2 == low % 2
  {
    assert a * (2 * p) == 2 * (a * p);
  }

  lemma TwoPowers()
    ensures Two(8) == 0x100 && Two(16) == 0x1_0000 && Two(24) == 0x100_0000
  {
    assert Two(0) == 1 && Two(1) == 2 && Two(2) == 4 && Two(3) == 8 && Two(4) == 16;
    assert Two(5) == 32 && Two(6) == 64 && Two(7) == 128 && Two(8) == 256;
    assert Two(9) == 512 && Two(10) == 1024 && Two(11) == 2048 && Two(12) == 4096;
    assert Two(13) == 8192 && Two(14) == 16384 && Two(15) == 32768 && Two(16) == 65536;
    assert Two(17) == 131072 && Two(18) == 262144 && Two(19) == 524288 && Two(20) == 1048576;
    assert Two(21) == 2097152 && Two(22) == 4194304 && Two(23) == 8388608 && Two(24) == 16777216;
  }

  /** The value is its three fields side by side, the length's own bits above its width over the digit sums. */
  lemma CddbParts(sum: nat, t: int, count: nat)
    requires count < 0x100
    ensures CddbValue(sum, t, count)
         == (BitOr(sum % 0xFF, t % 0x100_0000 / 0x1_0000) * 0x1_0000 + t % 0x1_0000) * 0x100 + count
  {
    hide BitOr;
    hide Two;
    var x, y := sum % 0xFF, t % 0x100_0000;
    var y1, y0 := y / 0x1_0000, y % 0x1_0000;
    NestedRemainder(t);
    LowBits(x, y1, y0);
    PutTogether(x, y, count);
  }

  lemma OneRemainder(t: int, a: int, r: int, b: int, s: int)
    requires t == a * 0x1_0000 + r == b * 0x1_0000 + s && 0 <= r < 0x1_0000 && 0 <= s < 0x1_0000
    ensures r == s
  {
  }

  lemma NestedRemainder(t: int)
    ensures t % 0x100_0000 % 0x1_0000 == t % 0x1_0000
  {
    var y := t % 0x100_0000;
    assert t == t / 0x100_0000 * 0x100_0000 + y && y == y / 0x1_0000 * 0x1_0000 + y % 0x1_0000;
    OneRemainder(t, t / 0x100_0000 * 0x100 + y / 0x1_0000, y % 0x1_0000, t / 0x1_0000, t % 0x1_0000);
  }

  lemma PutTogether(x: nat, y: nat, count: nat)
    requires count < 0x100
    ensures BitOr(BitOr(x * 0x100_0000, y * 0x100), count) == BitOr(x * 0x1_0000, y) * 0x100 + count
  {
    hide BitOr;
    TwoPowers();
    hide Two;
    OrZero(0);
    OrInParts(8, x * 0x1_0000, 0, y, 0);
    OrIsSum(BitOr(x * 0x1_0000, y), 8, count);
  }

  lemma LowBits(x: nat, y1: nat, y0: nat)
    requires y0 < 0x1_0000
    ensures BitOr(x * 0x1_0000, y1 * 0x1_0000 + y0) == BitOr(x, y1) * 0x1_0000 + y0
  {
    hide BitOr;
    TwoPowers();
    OrInParts(16, x, 0, y1, y0);
    OrCommutes(0, y0);
    OrZero(y0);
  }

  lemma {:induction false} OrCommutes(a: nat, b: nat)
    ensures BitOr(a, b) == BitOr(b, a)
    decreases a + b
  {
    if a + b > 0 {
      OrCommutes(a / 2, b / 2);
    }
  }

  /** With fewer than 256 tracks: the count can always be read off, and the length exactly when it has 16 bits. */
  lemma CddbFields(sum: nat, t: int, count: nat)
    requires count < 0x100
    ensures var v := CddbValue(sum, t, count);
      && v % 0x100 == count
      && (v / 0x100 % 0x1_0000 == t <==> 0 <= t < 0x1_0000)
      && (0 <= t < 0x1_0000 ==>
            && v / 0x100_0000 == sum % 0xFF
            && v == sum % 0xFF * 0x100_0000 + t * 0x100 + count < 0x1_0000_0000)
  {
    hide CddbValue;
    hide BitOr;
    CddbParts(sum, t, count);
    var over := t % 0x100_0000 / 0x1_0000;
    SideBySide(CddbValue(sum, t, count), BitOr(sum % 0xFF, over), t, count);
    if 0 <= t < 0x1_0000 {
      assert over == 0;
      OrZero(sum % 0xFF);
    }
  }

  lemma SideBySide(v: nat, high: nat, t: int, count: nat)
    requires count < 0x100 && v == (high * 0x1_0000 + t % 0x1_0000) * 0x100 + count
    ensures v % 0x100 == count && v / 0x100 % 0x1_0000 == t % 0x1_0000 && v / 0x100_0000 == high
  {
    assert v / 0x100 == high * 0x1_0000 + t % 0x1_0000;
  }

  /** A disc of one track and 65536 seconds: its length reads as none, and its digit sums as 3 instead of 2. */
  lemma LongDiscMisread()
    ensures var os, leadout := [150], 75 * 65538;
      var v := CddbValue(SecondSums(os), Seconds(os, leadout), |os|);
      && Seconds(os, leadout) == 0x1_0000 && SecondSums(os) == 2
      && v / 0x100 % 0x1_0000 == 0 && v / 0x100_0000 == 3
  {
    hide BitOr;
    hide CddbValue;
    hide SecondSums;
    TwoAndOne();
    StartsAtTwo();
    CddbParts(2, 0x1_0000, 1);
    SideBySide(CddbValue(2, 0x1_0000, 1), BitOr(2, 1), 0x1_0000, 1);
  }

  lemma TwoAndOne()
    ensures BitOr(2, 1) == 3
  {
    hide BitOr;
    OrStep(2, 1);
    OrZero(1);
  }

  lemma StartsAtTwo()
    ensures SecondSums([150]) == 2
  {
    assert [150][..0] == [] && 150 / 75 == 2 && DigitSum(2) == 2;
  }

  /** The id, eight hexadecimal digits; a disc without tracks has none. */
  method CddbId(os: seq<nat>, leadout: int) returns (id: string)
    requires os != []
    ensures id == Padded(CddbValue(SecondSums(os), Seconds(os, leadout), |os|), 8)
  {
    hide CddbValue;
    hide Padded;
    var n := SumSeconds(os);
    var t := leadout / 75 - os[0] / 75;
    id := Padded(CddbValue(n, t, |os|), 8);
  }

  /** A disc of up to 255 tracks and 18 hours: from its id, its digit sums, length and count of tracks. */
  lemma CddbIdReads(os: seq<nat>, leadout: int)
    requires 0 < |os| < 0x100 && 0 <= leadout / 75 - os[0] / 75 < 0x1_0000
    ensures var id := Padded(CddbValue(SecondSums(os), Seconds(os, leadout), |os|), 8);
      && |id| == 8
      && Value(id) == SecondSums(os) % 255 * 0x100_0000 + (leadout / 75 - os[0] / 75) * 0x100 + |os|
  {
    hide CddbValue;
    hide SecondSums;
    Powers();
    CddbFields(SecondSums(os), Seconds(os, leadout), |os|);
    PaddedReads(CddbValue(SecondSums(os), Seconds(os, leadout), |os|), 8);
  }
}
