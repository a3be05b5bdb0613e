/** The text under which an operator audit event is filed. */
module AuditEventId {
  /** Which control plane made a change. */
  datatype Plane = HumanManagement | AgentManagement

  function Digit(d: nat): char
    requires d < 10
  {
    '0' + d as char
  }

  /** Decimal text, most significant digit first, no leading zero. */
  function Decimal(n: nat): string {
    if n < 10 then [Digit(n)] else Decimal(n / 10) + [Digit(n % 10)]
  }

  function PlaneText(p: Plane): string {
    match p case HumanManagement => "human-management:" case AgentManagement => "agent-management:"
  }

  /** The action id may itself contain colons and digits. */
  function EventId(plane: Plane, action: string, revision: nat): string {
    PlaneText(plane) + action + ":operator-grant:" + Decimal(revision)
  }

  // ---------------------------------------------------------------- decimals

  function DigitValue(c: char): nat
    requires '0' <= c <= '9'
  {
    (c - '0') as nat
  }

  predicate IsDigits(s: string) {
    forall i :: 0 <= i < |s| ==> '0' <= s[i] <= '9'
  }

  /** The number a digit string denotes. */
  function Value(s: string): nat
    requires IsDigits(s)
  {
    if s == [] then 0 else Value(s[..|s| - 1]) * 10 + DigitValue(s[|s| - 1])
  }

  lemma {:induction false} DecimalIsDigits(n: nat)
    ensures IsDigits(Decimal(n))
  {
    if n >= 10 {
      DecimalIsDigits(n / 10);
    }
  }

  /** Reading back a decimal gives the number. */
  lemma {:induction false} DecimalRoundTrip(n: nat)
    ensures IsDigits(Decimal(n))
    ensures Value(Decimal(n)) == n
  {
    DecimalIsDigits(n);
    var s := Decimal(n);
    if n >= 10 {
      DecimalRoundTrip(n / 10);
      assert s[..|s| - 1] == Decimal(n / 10);
    } else {
      assert s[..0] == [];
    }
  }

  // ---------------------------------------------------------------- injectivity

  /** What follows the last colon is determined by the text. */
  lemma SplitAtLastColon(a: string, b: string, x: string, y: string)
    requires ':' !in x && ':' !in y
    requires a + [':'] + x == b + [':'] + y
    ensures a == b && x == y
  {
    var s := a + [':'] + x;
    assert s[|a|] == ':' && s[|b|] == ':';
    assert forall i :: |a| < i < |s| ==> s[i] == x[i - |a| - 1];
    assert forall i :: |b| < i < |s| ==> s[i] == y[i - |b| - 1];
    assert |a| == |b|;
    assert a == s[..|a|] && b == s[..|b|];
    assert x == s[|a| + 1..] && y == s[|b| + 1..];
  }

  lemma PlanesDiffer(p: Plane, q: Plane, x: string, y: string)
    requires PlaneText(p) + x == PlaneText(q) + y
    ensures p == q && x == y
  {
    assert (PlaneText(p) + x)[0] == (if p.HumanManagement? then 'h' else 'a');
    assert (PlaneText(q) + y)[0] == (if q.HumanManagement? then 'h' else 'a');
    assert x == (PlaneText(p) + x)[|PlaneText(p)|..];
  }

  /** Two events share an id exactly when plane, action and revision agree, whatever the action ids contain. */
  lemma EventIdIsInjective(p: Plane, a: string, m: nat, q: Plane, b: string, n: nat)
    ensures EventId(p, a, m) == EventId(q, b, n) <==> p == q && a == b && m == n
  {
    if EventId(p, a, m) == EventId(q, b, n) {
      var tail := ":operator-grant";
      DecimalRoundTrip(m);
      DecimalRoundTrip(n);
      var x := PlaneText(p) + a + tail;
      var y := PlaneText(q) + b + tail;
      assert EventId(p, a, m) == x + [':'] + Decimal(m);
      assert EventId(q, b, n) == y + [':'] + Decimal(n);
      SplitAtLastColon(x, y, Decimal(m), Decimal(n));
      assert PlaneText(p) + a == x[..|x| - |tail|] && PlaneText(q) + b == y[..|y| - |tail|];
      PlanesDiffer(p, q, a, b);
    }
  }
}
