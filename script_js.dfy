/**
 * script.js: the iterative words converter `toTerbilang` and the string part
 * of `generateNoInvoice`. The form fields and today's year and month are
 * inputs.
 */
module ScriptJs {
  import opened Text
  import KeuanganTerbilang

  /** `satuan`: the digit words (0 has the empty word). */
  const Satuan: seq<string> := ["", "satu", "dua", "tiga", "empat", "lima", "enam", "tujuh", "delapan", "sembilan"]

  /** `skala[sk]`; past "triliun" the array yields `undefined`, which a string concatenation spells out. */
  function Skala(sk: nat): string {
    if sk < 5 then ["", "ribu", "juta", "milyar", "triliun"][sk] else "undefined"
  }

  /** The hundreds part of `temp` for the hundreds digit `ratusan`. */
  function Hundreds(ratusan: nat): string
    requires ratusan < 10
  {
    if ratusan == 0 then "" else HundredWord(ratusan) + " "
  }

  /** The hundreds word for a hundreds digit from 1 to 9. */
  function HundredWord(ratusan: nat): string
    requires 0 < ratusan < 10
  {
    if ratusan == 1 then "seratus" else Satuan[ratusan] + " ratus"
  }

  /** The tens-and-units part of `temp` for the last two digits `r` of a group at scale position `sk`. */
  function TensAndUnits(r: nat, sk: nat): string
    requires r < 100
  {
    var puluhan, satuanDigit := r / 10, r % 10;
    if puluhan > 0 then
      if puluhan == 1 then
        if satuanDigit == 0 then "sepuluh " else if satuanDigit == 1 then "sebelas " else Satuan[satuanDigit] + " belas "
      else
        Satuan[puluhan] + " puluh " + (if satuanDigit > 0 then Satuan[satuanDigit] + " " else "")
    else if satuanDigit > 0 then
      if satuanDigit == 1 && sk == 1 then "seribu " else Satuan[satuanDigit] + " "
    else ""
  }

  /** `temp`: the words of one group `s` of three digits at scale position `sk`. */
  function GroupWords(s: nat, sk: nat): string
    requires s < 1000
  {
    Hundreds(s / 100) + TensAndUnits(s % 100, sk)
  }

  /**
   * What the groups of `nilai` from scale position `sk` on put into `str`:
   * each non-zero group's words followed by its scale word and a space, the
   * most significant group first; zero groups add nothing.
   */
  function Groups(nilai: nat, sk: nat): string
    decreases nilai
  {
    if nilai == 0 then ""
    else
      Groups(nilai / 1000, sk + 1) + GroupPiece(nilai % 1000, sk)
  }

  /** What one group `s` at scale position `sk` adds in front of `str`. */
  function GroupPiece(s: nat, sk: nat): string
    requires s < 1000
  {
    if s > 0 then GroupWords(s, sk) + Skala(sk) + " " else ""
  }

  /** The value `toTerbilang(nilai)` returns: "nol" for 0, nothing for a negative number. */
  function ToTerbilangValue(nilai: int): string {
    if nilai == 0 then "nol" else if nilai < 0 then "" else JsTrim(Groups(nilai, 0))
  }

  /** `toTerbilang(nilai)`: the loop that peels base-1000 groups off the least significant end. */
  method ToTerbilang(nilai: int) returns (r: string)
    ensures r == ToTerbilangValue(nilai)
  {
    if nilai == 0 {
      return "nol";
    }
    var str := "";
    var sk: nat := 0;
    var n := nilai;
    while n > 0
      invariant nilai <= 0 ==> n == nilai && str == ""
      invariant nilai > 0 ==> n >= 0 && Groups(nilai, 0) == Groups(n, sk) + str
      decreases if n > 0 then n else 0
    {
      var s := n % 1000;
      ghost var str0 := str;
      ghost var piece := GroupPiece(s, sk);
      assert Groups(n, sk) == Groups(n / 1000, sk + 1) + piece;
      if s > 0 {
        var temp := GroupWords(s, sk);
        str := temp + Skala(sk) + " " + str;
      }
      assert str == piece + str0;
      if nilai > 0 {
        PrependStep(Groups(nilai, 0), Groups(n, sk), Groups(n / 1000, sk + 1), piece, str0, str);
      }
      n := n / 1000;
      sk := sk + 1;
    }
    if nilai > 0 {
      assert Groups(n, sk) == "";
      assert str == Groups(nilai, 0);
    } else {
      assert str == "";
      assert JsTrim(str) == "";
    }
    r := JsTrim(str);
  }

  /** Re-association of the `str` accumulator: prepending `piece` to `str` moves it off the unread groups. */
  lemma PrependStep(whole: string, rest: string, restTail: string, piece: string, str0: string, str: string)
    requires whole == rest + str0 && rest == restTail + piece && str == piece + str0
    ensures whole == restTail + str
  {
  }

  /** `GroupWords` spells a group as a clean word followed by exactly one space. */
  predicate WordThenSpace(g: string) {
    |g| >= 2 && g[|g| - 1] == ' ' && Clean(g[..|g| - 1], false)
  }

  /** The digit words of the two converters coincide and have no spaces at their ends. */
  lemma DigitWord(d: nat)
    requires 1 <= d <= 9
    ensures KeuanganTerbilang.Terbilang(d) == Satuan[d] && Clean(Satuan[d], false)
  {
    assert KeuanganTerbilang.Terbilang(d) == KeuanganTerbilang.Bilne[d];
  }

  /** The claim of `GroupWordsAsTerbilang`: `g` is the clean word `c` and a space, and `t` is `c` with at most one space after it. */
  predicate SpelledAlike(g: string, t: string) {
    WordThenSpace(g) && (t == g[..|g| - 1] || t == g)
  }

  /** A clean word `c`, spelled as `c` plus a space by one converter and as `c` with at most one space by the other. */
  lemma AlikeFrom(c: string, g: string, t: string)
    requires Clean(c, false) && g == c + " " && (t == c || t == c + " ")
    ensures SpelledAlike(g, t)
  {
    CleanThenSpace(c);
  }

  /** Groups below one hundred: `GroupWords` only has tens and units. */
  lemma TensAsTerbilang(n: nat)
    requires 0 < n < 100
    ensures GroupWords(n, 0) == TensAndUnits(n, 0)
    ensures SpelledAlike(GroupWords(n, 0), KeuanganTerbilang.Terbilang(n))
  {
    BelowHundredGroup(n);
    if n < 10 {
      UnitsAsTerbilang(n);
    } else if n < 20 {
      TeensAsTerbilang(n);
    } else {
      TwentyOnAsTerbilang(n);
    }
  }

  /** Below one hundred a group has no hundreds word. */
  lemma BelowHundredGroup(n: nat)
    requires n < 100
    ensures GroupWords(n, 0) == TensAndUnits(n, 0)
  {
    assert n / 100 == 0 && n % 100 == n;
  }

  /** From one to nine: the digit word. */
  lemma UnitsAsTerbilang(n: nat)
    requires 1 <= n < 10
    ensures SpelledAlike(TensAndUnits(n, 0), KeuanganTerbilang.Terbilang(n))
  {
    DigitWord(n);
    assert TensAndUnits(n, 0) == Satuan[n] + " ";
    AlikeFrom(Satuan[n], TensAndUnits(n, 0), KeuanganTerbilang.Terbilang(n));
  }

  /** From ten to nineteen: "sepuluh", "sebelas", then a digit word and "belas". */
  lemma TeensAsTerbilang(n: nat)
    requires 10 <= n < 20
    ensures SpelledAlike(TensAndUnits(n, 0), KeuanganTerbilang.Terbilang(n))
  {
    var g := TensAndUnits(n, 0);
    var t := KeuanganTerbilang.Terbilang(n);
    if n == 10 {
      assert g == "sepuluh " && t == "sepuluh";
      AlikeFrom(t, g, t);
    } else if n == 11 {
      assert g == "sebelas " && t == "sebelas";
      AlikeFrom(t, g, t);
    } else {
      DigitWord(n - 10);
      var c := Satuan[n - 10] + " belas";
      assert g == c + " ";
      assert t == c;
      AlikeFrom(c, g, t);
    }
  }

  /** From twenty to ninety-nine: a digit word, "puluh", then the units digit word if any. */
  lemma TwentyOnAsTerbilang(n: nat)
    requires 20 <= n < 100
    ensures SpelledAlike(TensAndUnits(n, 0), KeuanganTerbilang.Terbilang(n))
  {
    var g := TensAndUnits(n, 0);
    var t := KeuanganTerbilang.Terbilang(n);
    var p, d := n / 10, n % 10;
    DigitWord(p);
    assert t == KeuanganTerbilang.Terbilang(p) + " puluh " + KeuanganTerbilang.Terbilang(d);
    if d > 0 {
      DigitWord(d);
      var c := Satuan[p] + " puluh " + Satuan[d];
      assert g == c + " ";
      CleanJoin(Satuan[p] + " puluh", Satuan[d]);
      AlikeFrom(c, g, t);
    } else {
      assert KeuanganTerbilang.Terbilang(0) == "";
      var c := Satuan[p] + " puluh";
      assert g == c + " ";
      assert t == c + " ";
      AlikeFrom(c, g, t);
    }
  }

  /** Both converters spell a group from one hundred on as its hundreds word, a space, then the last two digits. */
  lemma HundredsSplit(n: nat)
    requires 100 <= n < 1000
    ensures Clean(HundredWord(n / 100), false)
    ensures GroupWords(n, 0) == HundredWord(n / 100) + " " + TensAndUnits(n % 100, 0)
    ensures KeuanganTerbilang.Terbilang(n) == HundredWord(n / 100) + " " + KeuanganTerbilang.Terbilang(n % 100)
  {
    var h := n / 100;
    if h > 1 {
      DigitWord(h);
      assert HundredWord(h) + " " == Satuan[h] + " ratus ";
    } else {
      assert HundredWord(h) + " " == "seratus ";
    }
  }

  /** Groups from one hundred on: the hundreds word, then the tens and units spelled as a group of their own. */
  lemma HundredsAsTerbilang(n: nat)
    requires 100 <= n < 1000
    ensures SpelledAlike(GroupWords(n, 0), KeuanganTerbilang.Terbilang(n))
  {
    HundredsSplit(n);
    var r := n % 100;
    if r == 0 {
      assert KeuanganTerbilang.Terbilang(r) == "";
    } else {
      TensAsTerbilang(r);
    }
    HeadThenGroup(HundredWord(n / 100), TensAndUnits(r, 0), KeuanganTerbilang.Terbilang(r));
  }

  /** A clean head word, a space, then either nothing or two alike spellings, gives two alike spellings. */
  lemma HeadThenGroup(head: string, low: string, tr: string)
    requires Clean(head, false)
    requires (low == "" && tr == "") || SpelledAlike(low, tr)
    ensures SpelledAlike(head + " " + low, head + " " + tr)
  {
    if low == "" {
      AlikeFrom(head, head + " " + low, head + " " + tr);
    } else {
      var lc := low[..|low| - 1];
      var c := head + " " + lc;
      assert low == lc + " ";
      assert head + " " + low == c + " ";
      CleanJoin(head, lc);
      assert tr == lc || tr == low;
      AlikeFrom(c, head + " " + low, head + " " + tr);
    }
  }

  /** Two clean words joined by a space make a clean word. */
  lemma CleanJoin(a: string, b: string)
    requires Clean(a, false) && Clean(b, false)
    ensures Clean(a + " " + b, false)
  {
    var c := a + " " + b;
    assert c[0] == a[0] && c[|c| - 1] == b[|b| - 1];
  }

  /** A clean word followed by a space is a `WordThenSpace` whose word is that clean word. */
  lemma CleanThenSpace(c: string)
    requires Clean(c, false)
    ensures WordThenSpace(c + " ") && (c + " ")[..|c|] == c
  {
    assert (c + " ")[..|c|] == c;
  }

  /**
   * A units-position group 0 < n < 1000 is spelled by `GroupWords` as a
   * clean word `c` plus a space, where `terbilang(n)` is `c` itself or `c`
   * followed by one space (when it ends in "puluh" or "ratus").
   */
  lemma GroupWordsAsTerbilang(n: nat)
    requires 0 < n < 1000
    ensures SpelledAlike(GroupWords(n, 0), KeuanganTerbilang.Terbilang(n))
  {
    if n < 100 {
      TensAsTerbilang(n);
    } else {
      HundredsAsTerbilang(n);
    }
  }

  /** A clean word, alone or followed by one or two spaces, trims to itself in JavaScript. */
  lemma JsTrimPadded(c: string)
    requires Clean(c, false)
    ensures JsTrim(c) == c && JsTrim(c + " ") == c && JsTrim(c + " " + " ") == c
  {
    JsTrimNoSpaces(c);
    TrimPadded(c, [' '], false);
    JsTrimTwoSpaces(c);
  }

  lemma JsTrimNoSpaces(c: string)
    requires Clean(c, false)
    ensures JsTrim(c) == c
  {
    TrimPadded(c, [], false);
    assert c + [] == c;
  }

  lemma JsTrimTwoSpaces(c: string)
    requires Clean(c, false)
    ensures JsTrim(c + " " + " ") == c
  {
    TrimPadded(c, [' ', ' '], false);
    assert c + " " + " " == c + [' ', ' '];
  }



  /**
   * Below one thousand the two converters agree once the trailing space
   * `terbilang` can leave is trimmed.
   */
  lemma AgreesWithTerbilangBelowThousand(n: nat)
    requires 1 <= n < 1000
    ensures ToTerbilangValue(n) == JsTrim(KeuanganTerbilang.Terbilang(n))
    ensures ToTerbilangValue(n) != []
  {
    GroupWordsAsTerbilang(n);
    assert n / 1000 == 0 && n % 1000 == n;
    assert Groups(n, 0) == GroupWords(n, 0) + Skala(0) + " ";
    TrimAlike(GroupWords(n, 0), KeuanganTerbilang.Terbilang(n));
  }

  /** Two alike spellings trim to the same clean word, even with one more trailing space on the first. */
  lemma TrimAlike(g: string, t: string)
    requires SpelledAlike(g, t)
    ensures JsTrim(g + "" + " ") == JsTrim(t) && JsTrim(t) != []
  {
    var c := g[..|g| - 1];
    assert g == c + " ";
    assert g + "" + " " == c + " " + " ";
    JsTrimPadded(c);
  }


  /**
   * As written, the thousands group 1 already reads "seribu" and the scale
   * word "ribu" is added after it all the same.
   */
  lemma ThousandReadsTwice()
    ensures ToTerbilangValue(1000) == "seribu ribu"
  {
    assert 1000 / 1000 == 1 && 1000 % 1000 == 0;
    assert Groups(1000, 0) == Groups(1, 1);
    assert Groups(1, 1) == "seribu " + "ribu ";
    assert Groups(1000, 0) == "seribu ribu" + " ";
    JsTrimPadded("seribu ribu");
  }

  /** The groups of a whole number of thousands, as written: the thousands group alone, at scale position 1. */
  lemma ThousandsGroups(h: nat)
    requires 1 <= h < 1000
    ensures Groups(h * 1000, 0) == GroupPiece(h, 1)
  {
    var n := h * 1000;
    assert n / 1000 == h && n % 1000 == 0;
    assert h / 1000 == 0 && h % 1000 == h;
    assert Groups(n, 0) == Groups(h, 1) + GroupPiece(0, 0);
    assert Groups(h, 1) == Groups(0, 2) + GroupPiece(h, 1);
  }

  /** The scale position only changes how a group is spelled when the group ends in 01. */
  lemma GroupWordsAtScale(s: nat, sk: nat)
    requires s < 1000 && s % 100 != 1
    ensures GroupWords(s, sk) == GroupWords(s, 0)
  {
  }

  /**
   * Every other whole number of thousands from two thousand on is read
   * correctly as written: the number of thousands followed by "ribu".
   */
  lemma AsWrittenThousands(h: nat)
    requires 2 <= h < 1000 && h % 100 != 1
    ensures ToTerbilangValue(h * 1000) == ToTerbilangValue(h) + " ribu"
  {
    var g := GroupWords(h, 0);
    assert ToTerbilangValue(h * 1000) == JsTrim(GroupPiece(h, 1)) by {
      ThousandsValue(h);
    }
    assert GroupPiece(h, 1) == g + "ribu" + " " by {
      PieceAtThousands(h);
    }
    assert JsTrim(g + "ribu" + " ") == ToTerbilangValue(h) + " ribu" by {
      UnitsThenRibu(h);
    }
  }

  /** The units words of a group followed by "ribu ", trimmed, are its spelling followed by " ribu". */
  lemma UnitsThenRibu(h: nat)
    requires 1 <= h < 1000
    ensures JsTrim(GroupWords(h, 0) + "ribu" + " ") == ToTerbilangValue(h) + " ribu"
  {
    CorrectedUnitsWord(h);
    CorrectedBelowThousand(h);
    RibuAfterWord(GroupWords(h, 0), ToTerbilangValue(h));
  }

  /** A clean word `w` and a space, followed by "ribu ", trims to `w` and " ribu". */
  lemma RibuAfterWord(g: string, w: string)
    requires WordThenSpace(g) && w == g[..|g| - 1]
    ensures JsTrim(g + "ribu" + " ") == w + " ribu"
  {
    WordThenRibu(g);
  }

  /** A whole number of thousands below a million reads as its thousands group, trimmed. */
  lemma ThousandsValue(h: nat)
    requires 1 <= h < 1000
    ensures ToTerbilangValue(h * 1000) == JsTrim(GroupPiece(h, 1))
  {
    ThousandsGroups(h);
  }

  /** A thousands group not ending in 01 is its units words followed by "ribu". */
  lemma PieceAtThousands(h: nat)
    requires 1 <= h < 1000 && h % 100 != 1
    ensures GroupPiece(h, 1) == GroupWords(h, 0) + "ribu" + " "
  {
    GroupWordsAtScale(h, 1);
    SkalaRibu();
  }

  /** The corrected piece of one group: only a thousands group that is exactly 1 reads "seribu", with no scale word after it. */
  function GroupPieceCorrected(s: nat, sk: nat): string
    requires s < 1000
  {
    if s == 0 then "" else if s == 1 && sk == 1 then "seribu " else GroupWords(s, 0) + Skala(sk) + " "
  }

  function GroupsCorrected(nilai: nat, sk: nat): string
    decreases nilai
  {
    if nilai == 0 then "" else GroupsCorrected(nilai / 1000, sk + 1) + GroupPieceCorrected(nilai % 1000, sk)
  }

  /** `toTerbilang` with the thousands rule corrected. */
  function ToTerbilangCorrected(nilai: int): string {
    if nilai == 0 then "nol" else if nilai < 0 then "" else JsTrim(GroupsCorrected(nilai, 0))
  }

  /** Below one thousand the correction changes nothing. */
  lemma CorrectedBelowThousand(h: nat)
    requires 1 <= h < 1000
    ensures ToTerbilangCorrected(h) == ToTerbilangValue(h)
  {
    BelowThousandGroups(h);
  }

  /** Below one thousand the corrected converter returns the clean word of the units group. */
  lemma CorrectedUnitsWord(h: nat)
    requires 1 <= h < 1000
    ensures var g := GroupWords(h, 0); WordThenSpace(g) && ToTerbilangCorrected(h) == g[..|g| - 1]
  {
    BelowThousandGroups(h);
    GroupWordsAsTerbilang(h);
    WordThenTwoSpaces(GroupWords(h, 0));
  }

  /** Below one thousand both converters put the units group and one more space into `str`. */
  lemma BelowThousandGroups(h: nat)
    requires 1 <= h < 1000
    ensures GroupsCorrected(h, 0) == GroupWords(h, 0) + "" + " " && Groups(h, 0) == GroupWords(h, 0) + "" + " "
  {
    assert h / 1000 == 0 && h % 1000 == h;
  }

  lemma WordThenTwoSpaces(g: string)
    requires WordThenSpace(g)
    ensures JsTrim(g + "" + " ") == g[..|g| - 1]
  {
    var c := g[..|g| - 1];
    assert g + "" + " " == c + " " + " ";
    JsTrimTwoSpaces(c);
  }

  /** The groups of a whole number of thousands: the thousands group alone, at scale position 1. */
  lemma GroupsOfThousands(h: nat)
    requires 1 <= h < 1000
    ensures GroupsCorrected(h * 1000, 0) == GroupPieceCorrected(h, 1)
  {
    var n := h * 1000;
    assert n / 1000 == h && n % 1000 == 0;
    assert h / 1000 == 0 && h % 1000 == h;
    assert GroupsCorrected(n, 0) == GroupsCorrected(h, 1) + GroupPieceCorrected(0, 0);
    assert GroupsCorrected(h, 1) == GroupsCorrected(0, 2) + GroupPieceCorrected(h, 1);
  }

  /**
   * The corrected converter reads a whole number of thousands from two
   * thousand on as the number of thousands followed by "ribu".
   */
  lemma ThousandsReadAsUnits(h: nat)
    requires 2 <= h < 1000
    ensures ToTerbilangCorrected(h * 1000) == ToTerbilangCorrected(h) + " ribu"
  {
    var g := GroupWords(h, 0);
    assert ToTerbilangCorrected(h * 1000) == JsTrim(GroupPieceCorrected(h, 1)) by {
      CorrectedThousandsValue(h);
    }
    assert GroupPieceCorrected(h, 1) == g + "ribu" + " " by {
      SkalaRibu();
    }
    assert JsTrim(g + "ribu" + " ") == ToTerbilangCorrected(h) + " ribu" by {
      UnitsThenRibu(h);
      CorrectedBelowThousand(h);
    }
  }

  /** With the correction, a whole number of thousands below a million reads as its thousands group, trimmed. */
  lemma CorrectedThousandsValue(h: nat)
    requires 1 <= h < 1000
    ensures ToTerbilangCorrected(h * 1000) == JsTrim(GroupPieceCorrected(h, 1))
  {
    GroupsOfThousands(h);
  }

  /** With the correction one thousand reads "seribu". */
  lemma CorrectedThousand()
    ensures ToTerbilangCorrected(1000) == "seribu"
  {
    GroupsOfThousands(1);
    assert GroupPieceCorrected(1, 1) == "seribu" + " ";
    JsTrimPadded("seribu");
  }

  lemma SkalaRibu()
    ensures Skala(1) == "ribu"
  {
  }

  /** A clean word and a space, followed by "ribu " trims to the word, a space and "ribu". */
  lemma WordThenRibu(g: string)
    requires WordThenSpace(g)
    ensures JsTrim(g + "ribu" + " ") == g[..|g| - 1] + " ribu"
  {
    var c := g[..|g| - 1];
    assert g == c + " ";
    assert Clean("ribu", false);
    CleanJoin(c, "ribu");
    assert g + "ribu" + " " == c + " " + "ribu" + " ";
    JsTrimPadded(c + " " + "ribu");
  }

  /** The service code field, "JS" when empty. */
  function KodeLayanan(field: string): string {
    if field == "" then "JS" else field
  }

  /** The sequence number field, "1" when empty. */
  function NomorUrut(field: string): string {
    if field == "" then "1" else field
  }

  /** `generateNoInvoice()` for the two form fields and today's year and month. */
  function GenerateNoInvoice(kodeLayanan: string, nomorUrut: string, tahun: nat, bulan: nat): string
    requires 1 <= bulan <= 12
  {
    Join4("PI-" + KodeLayanan(kodeLayanan), NatToString(tahun), PadStart(NatToString(bulan), 2, '0'),
          PadStart(NomorUrut(nomorUrut), 3, '0'), '/')
  }

  /**
   * For a code and a number without slashes, the invoice number splits into
   * "PI-" and the code, the year, the two-digit month and the number padded
   * with zeros to three characters, which keeps a digit string's value.
   */
  lemma NoInvoiceParts(kodeLayanan: string, nomorUrut: string, tahun: nat, bulan: nat)
    requires 1 <= bulan <= 12
    requires '/' !in kodeLayanan && '/' !in nomorUrut
    ensures var parts := Split(GenerateNoInvoice(kodeLayanan, nomorUrut, tahun, bulan), '/');
      && |parts| == 4
      && parts[0] == "PI-" + KodeLayanan(kodeLayanan)
      && AllDigits(parts[1]) && ParseDigits(parts[1]) == tahun
      && |parts[2]| == 2 && AllDigits(parts[2]) && ParseDigits(parts[2]) == bulan
      && parts[3] == PadStart(NomorUrut(nomorUrut), 3, '0')
      && (AllDigits(NomorUrut(nomorUrut)) ==> AllDigits(parts[3]) && ParseDigits(parts[3]) == ParseDigits(NomorUrut(nomorUrut)))
  {
    var p := "PI-" + KodeLayanan(kodeLayanan);
    assert p[..3] == "PI-" && p[3..] == KodeLayanan(kodeLayanan);
    assert '/' !in p;
    NatToStringReadsBack(tahun);
    PadTwoDigits(bulan);
    NoInvoiceSplit(p, NatToString(tahun), PadStart(NatToString(bulan), 2, '0'), NomorUrut(nomorUrut));
  }

  /** The four slash-free parts of an invoice number split back out of it. */
  lemma NoInvoiceSplit(p: string, y: string, m: string, nomor: string)
    requires '/' !in p && '/' !in nomor && AllDigits(y) && AllDigits(m)
    ensures Split(Join4(p, y, m, PadStart(nomor, 3, '0'), '/'), '/') == [p, y, m, PadStart(nomor, 3, '0')]
    ensures AllDigits(nomor) ==> AllDigits(PadStart(nomor, 3, '0')) && ParseDigits(PadStart(nomor, 3, '0')) == ParseDigits(nomor)
  {
    var q := PadStart(nomor, 3, '0');
    PadStartShape(nomor, 3, '0');
    DigitsHaveNo(y, '/');
    DigitsHaveNo(m, '/');
    var zeros := q[..|q| - |nomor|];
    assert q == zeros + nomor;
    assert '/' !in q;
    SplitFour(p, y, m, q, '/');
    if AllDigits(nomor) {
      ParseDigitsLeadingZeros(zeros, nomor);
    }
  }

}
