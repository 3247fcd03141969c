/**
 * `terbilang` of keuangan.js: the recursive conversion of a whole amount into
 * Indonesian words. Every recursive call is on a strictly smaller number,
 * which Dafny checks through the `decreases` clause.
 */
module KeuanganTerbilang {

  /** `bilne`: the words for 0 to 11 (0 has the empty word). */
  const Bilne: seq<string> :=
    ["", "satu", "dua", "tiga", "empat", "lima", "enam", "tujuh", "delapan", "sembilan", "sepuluh", "sebelas"]

  const TooLarge: string := "angka terlalu besar"

  /** 10^15, the first amount that `terbilang` refuses. */
  const Limit: nat := 1_000_000_000_000_000

  /** `terbilang(angka)` for a whole amount; `bilne[angka] || ""` is "" for a negative one. */
  function Terbilang(angka: int): string
    decreases angka
  {
    if angka < 0 then ""
    else if angka < 12 then Bilne[angka]
    else if angka < 20 then Terbilang(angka - 10) + " belas"
    else if angka < 100 then Terbilang(angka / 10) + " puluh " + Terbilang(angka % 10)
    else if angka < 200 then "seratus " + Terbilang(angka - 100)
    else if angka < 1000 then Terbilang(angka / 100) + " ratus " + Terbilang(angka % 100)
    else if angka < 2000 then "seribu " + Terbilang(angka - 1000)
    else if angka < 1_000_000 then Terbilang(angka / 1000) + " ribu " + Terbilang(angka % 1000)
    else if angka < 1_000_000_000 then Terbilang(angka / 1_000_000) + " juta " + Terbilang(angka % 1_000_000)
    else if angka < 1_000_000_000_000 then Terbilang(angka / 1_000_000_000) + " miliar " + Terbilang(angka % 1_000_000_000)
    else if angka < Limit then Terbilang(angka / 1_000_000_000_000) + " triliun " + Terbilang(angka % 1_000_000_000_000)
    else TooLarge
  }

  /** The spelling is empty for 0 and every negative amount; every amount from 1 up has a non-empty one. */
  lemma {:induction false} TerbilangEmptyOnlyAtZero(angka: int)
    ensures Terbilang(angka) == "" <==> angka <= 0
    decreases angka
  {
    if 20 <= angka < 100 {
      TerbilangEmptyOnlyAtZero(angka / 10);
    } else if 200 <= angka < 1000 {
      TerbilangEmptyOnlyAtZero(angka / 100);
    } else if 2000 <= angka < 1_000_000 {
      TerbilangEmptyOnlyAtZero(angka / 1000);
    } else if 1_000_000 <= angka < 1_000_000_000 {
      TerbilangEmptyOnlyAtZero(angka / 1_000_000);
    } else if 1_000_000_000 <= angka < 1_000_000_000_000 {
      TerbilangEmptyOnlyAtZero(angka / 1_000_000_000);
    } else if 1_000_000_000_000 <= angka < Limit {
      TerbilangEmptyOnlyAtZero(angka / 1_000_000_000_000);
    }
  }

  /** Amounts from 10^15 up are refused with the same text. */
  lemma TerbilangTooLarge(angka: int)
    requires angka >= Limit
    ensures Terbilang(angka) == TooLarge
  {
  }

  /** A spelled amount never starts with a space. */
  lemma {:induction false} TerbilangNoLeadingSpace(angka: int)
    requires angka > 0
    ensures Terbilang(angka) != "" && Terbilang(angka)[0] != ' '
    decreases angka
  {
    TerbilangEmptyOnlyAtZero(angka);
    if 12 <= angka < 20 {
      TerbilangNoLeadingSpace(angka - 10);
    } else if 20 <= angka < 100 {
      TerbilangNoLeadingSpace(angka / 10);
    } else if 200 <= angka < 1000 {
      TerbilangNoLeadingSpace(angka / 100);
    } else if 2000 <= angka < 1_000_000 {
      TerbilangNoLeadingSpace(angka / 1000);
    } else if 1_000_000 <= angka < 1_000_000_000 {
      TerbilangNoLeadingSpace(angka / 1_000_000);
    } else if 1_000_000_000 <= angka < 1_000_000_000_000 {
      TerbilangNoLeadingSpace(angka / 1_000_000_000);
    } else if 1_000_000_000_000 <= angka < Limit {
      TerbilangNoLeadingSpace(angka / 1_000_000_000_000);
    }
  }

  /** The two worked examples: 1000 is "seribu " and 25000 is "dua puluh lima ribu ". */
  lemma TerbilangExamples()
    ensures Terbilang(1000) == "seribu "
    ensures Terbilang(25000) == "dua puluh lima ribu "
  {
    assert Terbilang(0) == "";
    assert Terbilang(25) == "dua puluh lima" by {
      assert Terbilang(2) == "dua" && Terbilang(5) == "lima";
    }
  }
}
