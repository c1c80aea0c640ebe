/** The keys derived tasks get by default: parent, attempt and outcome, joined by colons. */
module DerivedKeys {
  import opened Rows

  lemma {:induction false} DigitsTell(m: nat, n: nat)
    ensures Digits(m) == Digits(n) ==> m == n
    decreases m + n
  {
    var s, t := Digits(m), Digits(n);
    assert s[|s| - 1] == ('0' as int + m % 10) as char && t[|t| - 1] == ('0' as int + n % 10) as char;
    if m >= 10 && n >= 10 {
      assert s[..|s| - 1] == Digits(m / 10) && t[..|t| - 1] == Digits(n / 10);
      DigitsTell(m / 10, n / 10);
    } else if m >= 10 || n >= 10 {
      var big, small := if m >= 10 then m else n, if m >= 10 then n else m;
      assert |Digits(big)| == |Digits(big / 10)| + 1 && |Digits(small)| == 1;
    }
  }

  lemma DecimalsTell(x: int, y: int)
    ensures Decimal(x) == Decimal(y) ==> x == y
  {
    var m, n := if x < 0 then -x else x, if y < 0 then -y else y;
    DigitsTell(m, n);
    if x < 0 { assert Decimal(x)[0] == '-' && Decimal(x)[1..] == Digits(m); }
    if y < 0 { assert Decimal(y)[0] == '-' && Decimal(y)[1..] == Digits(n); }
  }

  lemma FirstColon(a: string, b: string, s: string, t: string)
    requires (forall i :: 0 <= i < |a| ==> a[i] != ':') && (forall i :: 0 <= i < |b| ==> b[i] != ':')
    ensures a + ":" + s == b + ":" + t ==> a == b && s == t
  {
    var u, v := a + ":" + s, b + ":" + t;
    assert u[|a|] == ':' && v[|b|] == ':';
    assert (forall i :: 0 <= i < |a| ==> u[i] != ':') && (forall i :: 0 <= i < |b| ==> v[i] != ':');
    assert a == u[..|a|] && b == v[..|b|];
    assert s == u[|a| + 1..] && t == v[|b| + 1..];
  }

  /** Two terminal moves have the same default key only if they end the same attempt of the
      same task with the same outcome. */
  lemma DefaultKeysTell(p: TaskId, a: int, o: Outcome, p': TaskId, a': int, o': Outcome)
    ensures DefaultKey(p, a, o) == DefaultKey(p', a', o') <==> p == p' && a == a' && o == o'
  {
    var rest, rest' := Decimal(a) + ":" + Decimal(o.Code()), Decimal(a') + ":" + Decimal(o'.Code());
    assert DefaultKey(p, a, o) == Decimal(p) + ":" + rest;
    assert DefaultKey(p', a', o') == Decimal(p') + ":" + rest';
    FirstColon(Decimal(p), Decimal(p'), rest, rest');
    FirstColon(Decimal(a), Decimal(a'), Decimal(o.Code()), Decimal(o'.Code()));
    DecimalsTell(p, p');
    DecimalsTell(a, a');
    DecimalsTell(o.Code(), o'.Code());
  }

  // ----- the digits -----

  function DigitValue(s: string): int
    decreases |s|
  {
    if s == "" then 0 else 10 * DigitValue(s[..|s| - 1]) + (s[|s| - 1] as int - '0' as int)
  }

  function Value(s: string): int {
    if s != "" && s[0] == '-' then -DigitValue(s[1..]) else DigitValue(s)
  }

  lemma {:induction false} DigitsRead(n: nat)
    ensures DigitValue(Digits(n)) == n
  {
    var s := Digits(n);
    if n < 10 {
      assert s[..|s| - 1] == "";
    } else {
      assert s[..|s| - 1] == Digits(n / 10);
      DigitsRead(n / 10);
    }
  }

  /** Read as a decimal number, the text gives the number back. */
  lemma DecimalReads(x: int)
    ensures Value(Decimal(x)) == x
  {
    if x < 0 {
      DigitsRead(-x);
      assert Decimal(x)[1..] == Digits(-x);
    } else {
      DigitsRead(x);
    }
  }

  /** A default key is parent, attempt and outcome code in decimal, joined by colons. */
  lemma KeyLayout(p: TaskId, a: int, o: Outcome)
    ensures DefaultKey(p, a, o) == Decimal(p) + ":" + Decimal(a) + ":"
                                   + (match o case Unset => "0" case Succeeded => "1" case Failed => "2" case Dead => "3")
  {
    assert Decimal(0) == "0" && Decimal(1) == "1" && Decimal(2) == "2" && Decimal(3) == "3";
  }
}
