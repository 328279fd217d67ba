/**
 * The formatting step of the two name generators: a nickname `BURN<n>#` and a
 * room name "<prefix> <suffix> <n>", for the number 1000..9999 and the word
 * positions the server draws at random.  The draws are parameters here.
 */
module Generators {

  const Prefixos: seq<string> := ["Privada", "Secreta", "Anônima", "Oculta", "Segura", "Criptografada", "Fantasma", "Silenciosa"]
  const Sufixos: seq<string> := ["Sala", "Espaço", "Lugar", "Canal", "Central", "Zona", "Canto", "Lounge"]

  function DigitChar(d: nat): char
    requires d < 10
  {
    "0123456789"[d]
  }

  function DigitValue(c: char): nat
  {
    if '0' <= c <= '9' then (c as int - '0' as int) as nat else 0
  }

  /** The decimal text of a number, as a template literal prints it. */
  function Decimal(n: nat): (s: string)
    ensures |s| >= 1
    ensures forall i :: 0 <= i < |s| ==> '0' <= s[i] <= '9'
    decreases n
  {
    if n < 10 then [DigitChar(n)] else Decimal(n / 10) + [DigitChar(n % 10)]
  }

  function ParseDecimal(s: string): nat
    decreases |s|
  {
    if s == [] then 0 else ParseDecimal(s[..|s| - 1]) * 10 + DigitValue(s[|s| - 1])
  }

  /** Reading the decimal text back gives the number. */
  lemma {:induction false} DecimalRoundTrip(n: nat)
    ensures ParseDecimal(Decimal(n)) == n
    decreases n
  {
    var s := Decimal(n);
    if n >= 10 {
      DecimalRoundTrip(n / 10);
      assert s[..|s| - 1] == Decimal(n / 10);
    }
  }

  /** Every number the generators draw prints as four digits. */
  lemma FourDigits(n: nat)
    requires 1000 <= n <= 9999
    ensures |Decimal(n)| == 4
  {
    var a, b, c := n / 10, n / 10 / 10, n / 10 / 10 / 10;
    assert 100 <= a <= 999 && 10 <= b <= 99 && 1 <= c <= 9;
    assert |Decimal(c)| == 1;
    assert |Decimal(b)| == 2;
    assert |Decimal(a)| == 3;
  }

  /** GET /api/gerar-apelido with the drawn number. */
  function Apelido(n: nat): (s: string)
    requires 1000 <= n <= 9999
    ensures |s| == 9 && s[..4] == "BURN" && s[8] == '#'
    ensures s[4..8] == Decimal(n) && ParseDecimal(s[4..8]) == n
  {
    FourDigits(n);
    DecimalRoundTrip(n);
    var s := "BURN" + Decimal(n) + "#";
    assert s[4..8] == Decimal(n);
    s
  }

  /** GET /api/gerar-nome-sala with the drawn word positions and number. */
  function NomeSala(p: nat, q: nat, n: nat): (s: string)
    requires p < |Prefixos| && q < |Sufixos| && 1000 <= n <= 9999
    ensures |s| == |Prefixos[p]| + |Sufixos[q]| + 6
    ensures s[..|Prefixos[p]|] == Prefixos[p] && s[|Prefixos[p]|] == ' '
    ensures s[|Prefixos[p]| + 1..|Prefixos[p]| + 1 + |Sufixos[q]|] == Sufixos[q] && s[|s| - 5] == ' '
    ensures s[|s| - 4..] == Decimal(n) && ParseDecimal(s[|s| - 4..]) == n
  {
    FourDigits(n);
    DecimalRoundTrip(n);
    var s := Prefixos[p] + " " + Sufixos[q] + " " + Decimal(n);
    assert s[|s| - 4..] == Decimal(n);
    assert s[|Prefixos[p]| + 1..|Prefixos[p]| + 1 + |Sufixos[q]|] == Sufixos[q];
    s
  }
}
