/** The text keys "charger:connector" of the controller's caches, and that they tell connectors apart. */
module Keys {
  import opened Ports

  function Digit(d: int): char
    requires 0 <= d < 10
  {
    ('0' as int + d) as char
  }

  function Digits(n: nat): string {
    if n < 10 then [Digit(n)] else Digits(n / 10) + [Digit(n % 10)]
  }

  /** The decimal text of an integer. */
  function Decimal(n: int): string {
    if n < 0 then "-" + Digits(-n) else Digits(n)
  }

  function Key(id: string, connector: int): string {
    id + ":" + Decimal(connector)
  }

  /** The number a text of digits stands for. */
  function NumberOf(s: string): int {
    if s == [] then 0 else 10 * NumberOf(s[..|s| - 1]) + (s[|s| - 1] as int - '0' as int)
  }

  lemma {:induction false} DigitsRoundTrip(n: nat)
    ensures NumberOf(Digits(n)) == n
    ensures forall c :: c in Digits(n) ==> '0' <= c <= '9'
    ensures Digits(n) != []
  {
    if n < 10 {
      assert [Digit(n)][..0] == [];
    } else {
      DigitsRoundTrip(n / 10);
      var s := Digits(n / 10) + [Digit(n % 10)];
      assert s[..|s| - 1] == Digits(n / 10);
    }
  }

  lemma {:induction false} DecimalInjective(m: int, n: int)
    requires Decimal(m) == Decimal(n)
    ensures m == n
  {
    var a: nat, b: nat := if m < 0 then -m else m, if n < 0 then -n else n;
    DigitsRoundTrip(a);
    DigitsRoundTrip(b);
    if m < 0 {
      assert Decimal(m)[0] == '-' && Decimal(m)[1..] == Digits(a);
    }
    if n < 0 {
      assert Decimal(n)[0] == '-' && Decimal(n)[1..] == Digits(b);
    }
    assert m >= 0 ==> Decimal(m)[0] in Digits(a);
    assert n >= 0 ==> Decimal(n)[0] in Digits(b);
  }

  lemma NoColonInDecimal(n: int)
    ensures ':' !in Decimal(n)
  {
    DigitsRoundTrip(if n < 0 then -n else n);
  }

  lemma LastColonIsUnique(k: string, i: nat, j: nat)
    requires i < |k| && j < |k|
    requires k[i] == k[j] == ':'
    requires ':' !in k[i + 1..] && ':' !in k[j + 1..]
    ensures i == j
  {
    assert forall x :: i < x < |k| ==> k[x] == k[i + 1..][x - i - 1];
    assert forall x :: j < x < |k| ==> k[x] == k[j + 1..][x - j - 1];
  }

  /** Whatever colons the charger names contain, two connectors with the same key are the same connector. */
  lemma {:induction false} KeyInjective(a: string, m: int, b: string, n: int)
    requires Key(a, m) == Key(b, n)
    ensures a == b && m == n
  {
    NoColonInDecimal(m);
    NoColonInDecimal(n);
    var k := Key(a, m);
    assert k[|a|] == ':' && k[|a| + 1..] == Decimal(m) && k[..|a|] == a;
    assert k[|b|] == ':' && k[|b| + 1..] == Decimal(n) && k[..|b|] == b;
    LastColonIsUnique(k, |a|, |b|);
    DecimalInjective(m, n);
  }

  /** The cache `m`, keyed by text, says of each connector what `v` says. */
  ghost predicate Mirrors<V>(m: map<string, V>, v: map<Target, V>) {
    forall id: string, n: int ::
      && (Key(id, n) in m <==> (id, n) in v)
      && ((id, n) in v ==> m[Key(id, n)] == v[(id, n)])
  }

  lemma MirrorsUpdate<V>(m: map<string, V>, v: map<Target, V>, id: string, n: int, x: V)
    requires Mirrors(m, v)
    ensures Mirrors(m[Key(id, n) := x], v[(id, n) := x])
  {
    forall b: string, k: int | (b, k) != (id, n) ensures Key(b, k) != Key(id, n) {
      if Key(b, k) == Key(id, n) {
        KeyInjective(b, k, id, n);
      }
    }
  }
}
