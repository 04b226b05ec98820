/** User ids and the order-id language billing prints and parses. */
module Orders {
  import opened Wrappers
  import opened Text
  import Plans

  type Byte = n: nat | n < 256 witness 0

  type Uuid = u: seq<Byte> | |u| == 16 witness seq(16, _ => 0)

  /** uuid.Nil */
  const NIL: Uuid := [0, 0, 0, 0, 0, 0, 0, 0, 0, 0, 0, 0, 0, 0, 0, 0]

  function HexDigit(d: nat): (c: char)
    requires d < 16
    ensures c != '.'
  {
    if d < 10 then DigitChar(d) else ('a' as int + d - 10) as char
  }

  function Hex(b: seq<Byte>): (s: string)
    ensures |s| == 2 * |b| && '.' !in s
  {
    if b == [] then "" else [HexDigit(b[0] / 16), HexDigit(b[0] % 16)] + Hex(b[1..])
  }

  lemma HexDigitInjective(d: nat, e: nat)
    requires d < 16 && e < 16 && HexDigit(d) == HexDigit(e)
    ensures d == e
  {
    assert d < 10 ==> DigitValue(HexDigit(d)) == d;
    assert e < 10 ==> DigitValue(HexDigit(e)) == e;
  }

  lemma {:induction false} HexInjective(a: seq<Byte>, b: seq<Byte>)
    requires Hex(a) == Hex(b)
    ensures a == b
  {
    assert |a| == |b|;
    if a != [] {
      assert Hex(a)[0] == Hex(b)[0] && Hex(a)[1] == Hex(b)[1];
      HexDigitInjective(a[0] / 16, b[0] / 16);
      HexDigitInjective(a[0] % 16, b[0] % 16);
      assert Hex(a[1..]) == Hex(a)[2..] && Hex(b[1..]) == Hex(b)[2..];
      HexInjective(a[1..], b[1..]);
      assert a == [a[0]] + a[1..] && b == [b[0]] + b[1..];
    }
  }

  /** The 8-4-4-4-12 form. */
  function UuidText(u: Uuid): (s: string)
    ensures |s| == 36 && '.' !in s
  {
    Hex(u[..4]) + "-" + Hex(u[4..6]) + "-" + Hex(u[6..8]) + "-" + Hex(u[8..10]) + "-" + Hex(u[10..])
  }

  lemma UuidTextInjective(u: Uuid, v: Uuid)
    requires UuidText(u) == UuidText(v)
    ensures u == v
  {
    hide Hex;
    assert Hex(u[..4]) == UuidText(u)[..8] && Hex(v[..4]) == UuidText(v)[..8];
    assert Hex(u[4..6]) == UuidText(u)[9..13] && Hex(v[4..6]) == UuidText(v)[9..13];
    assert Hex(u[6..8]) == UuidText(u)[14..18] && Hex(v[6..8]) == UuidText(v)[14..18];
    assert Hex(u[8..10]) == UuidText(u)[19..23] && Hex(v[8..10]) == UuidText(v)[19..23];
    assert Hex(u[10..]) == UuidText(u)[24..] && Hex(v[10..]) == UuidText(v)[24..];
    HexInjective(u[..4], v[..4]);
    HexInjective(u[4..6], v[4..6]);
    HexInjective(u[6..8], v[6..8]);
    HexInjective(u[8..10], v[8..10]);
    HexInjective(u[10..], v[10..]);
    assert u == u[..4] + u[4..6] + u[6..8] + u[8..10] + u[10..];
    assert v == v[..4] + v[4..6] + v[6..8] + v[8..10] + v[10..];
  }

  const TRIAL := "trial"
  const DIRECT := "direct"

  /** orderID, with the clock reading as a parameter. */
  function OrderId(flow: string, planName: string, user: Uuid, unix: int): string {
    "sub" + ['.'] + (flow + ['.'] + (planName + ['.'] + (UuidText(user) + ['.'] + IntText(unix))))
  }

  /** parseOrderID: five dot-separated parts, the first being "sub". */
  function ParseOrderId(id: string): Option<(string, string)> {
    var parts := Split(id, '.');
    if |parts| != 5 || parts[0] != "sub" then None else Some((parts[1], parts[2]))
  }

  /** The flow and plan pairs a checkout ever prints. */
  predicate Sellable(flow: string, planName: string) {
    (flow == TRIAL && planName == Plans.MAX) || (flow == DIRECT && (planName == Plans.PRO || planName == Plans.MAX))
  }

  /** The order id parses into a sellable pair and carries this user's UUID. */
  predicate Names(id: string, user: Uuid) {
    var parts := Split(id, '.');
    |parts| == 5 && parts[0] == "sub" && Sellable(parts[1], parts[2]) && parts[3] == UuidText(user)
  }

  lemma SplitFive(a: string, b: string, c: string, d: string, e: string)
    requires '.' !in a && '.' !in b && '.' !in c && '.' !in d && '.' !in e
    ensures Split(a + ['.'] + (b + ['.'] + (c + ['.'] + (d + ['.'] + e))), '.') == [a, b, c, d, e]
  {
    calc {
      Split(a + ['.'] + (b + ['.'] + (c + ['.'] + (d + ['.'] + e))), '.');
      { SplitFirst(a, '.', b + ['.'] + (c + ['.'] + (d + ['.'] + e))); }
      [a] + Split(b + ['.'] + (c + ['.'] + (d + ['.'] + e)), '.');
      { SplitFirst(b, '.', c + ['.'] + (d + ['.'] + e)); }
      [a] + ([b] + Split(c + ['.'] + (d + ['.'] + e), '.'));
      { SplitFirst(c, '.', d + ['.'] + e); }
      [a] + ([b] + ([c] + Split(d + ['.'] + e, '.')));
      { SplitFirst(d, '.', e); SplitWhole(e, '.'); }
      [a] + ([b] + ([c] + ([d] + [e])));
      [a, b, c, d, e];
    }
  }

  lemma SplitOrderId(flow: string, planName: string, user: Uuid, unix: int)
    requires '.' !in flow && '.' !in planName
    ensures Split(OrderId(flow, planName, user, unix), '.') == ["sub", flow, planName, UuidText(user), IntText(unix)]
  {
    assert '.' !in "sub" && '.' !in IntText(unix);
    SplitFive("sub", flow, planName, UuidText(user), IntText(unix));
  }

  /** Printing then parsing gives back flow and plan, for every separator-free flow and plan. */
  lemma OrderIdRoundTrip(flow: string, planName: string, user: Uuid, unix: int)
    requires '.' !in flow && '.' !in planName
    ensures ParseOrderId(OrderId(flow, planName, user, unix)) == Some((flow, planName))
    ensures Sellable(flow, planName) ==> Names(OrderId(flow, planName, user, unix), user)
  {
    SplitOrderId(flow, planName, user, unix);
  }

  /** An order id names at most one user, so equal ids mean equal owners. */
  lemma NamesOneUser(id: string, u: Uuid, v: Uuid)
    requires Names(id, u) && Names(id, v)
    ensures u == v
  {
    UuidTextInjective(u, v);
  }

  /** The printed order id determines every field that went into it. */
  lemma OrderIdInjective(f: string, p: string, u: Uuid, t: int, f': string, p': string, u': Uuid, t': int)
    requires '.' !in f && '.' !in p && '.' !in f' && '.' !in p'
    requires OrderId(f, p, u, t) == OrderId(f', p', u', t')
    ensures f == f' && p == p' && u == u' && t == t'
  {
    SplitOrderId(f, p, u, t);
    SplitOrderId(f', p', u', t');
    var s := ["sub", f, p, UuidText(u), IntText(t)];
    var s' := ["sub", f', p', UuidText(u'), IntText(t')];
    assert s[1] == s'[1] && s[2] == s'[2] && s[3] == s'[3] && s[4] == s'[4];
    UuidTextInjective(u, u');
    IntTextInjective(t, t');
  }

  lemma IntTextInjective(a: int, b: int)
    requires IntText(a) == IntText(b)
    ensures a == b
  {
    assert a < 0 ==> IntText(a)[0] == '-' && IntText(a)[1..] == NatText(-a);
    assert b < 0 ==> IntText(b)[0] == '-' && IntText(b)[1..] == NatText(-b);
    assert a >= 0 ==> IsDigit(IntText(a)[0]);
    assert b >= 0 ==> IsDigit(IntText(b)[0]);
    NatTextValue(if a < 0 then -a else a);
    NatTextValue(if b < 0 then -b else b);
  }
}
