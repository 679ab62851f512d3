/** The idempotency key an accepted event is published under (src/event_bus.rs), and why
    two events never share one. */
module DeliveryKeys {
  import opened Prelude

  // ----- decimal text of an integer -----

  predicate IsDigit(c: char) {
    '0' <= c <= '9'
  }

  function Digit(n: nat): (c: char)
    requires n < 10
    ensures IsDigit(c)
  {
    '0' + n as char
  }

  function Digits(n: nat): (text: string)
    ensures text != "" && forall i :: 0 <= i < |text| ==> IsDigit(text[i])
  {
    if n < 10 then [Digit(n)] else Digits(n / 10) + [Digit(n % 10)]
  }

  /** `{}` of an `i64`. */
  function Decimal(n: i64): string {
    var value: int := n;
    if value < 0 then "-" + Digits(-value) else Digits(value)
  }

  function DigitValue(c: char): nat {
    if IsDigit(c) then c as nat - '0' as nat else 0
  }

  function ValueOf(text: string): nat {
    if text == "" then 0 else 10 * ValueOf(text[..|text| - 1]) + DigitValue(text[|text| - 1])
  }

  function Parsed(text: string): int {
    if text != "" && text[0] == '-' then 0 - ValueOf(text[1..]) else ValueOf(text)
  }

  lemma DigitRoundTrip(n: nat)
    requires n < 10
    ensures DigitValue(Digit(n)) == n
  {
  }

  lemma {:induction false} DigitsRoundTrip(n: nat)
    ensures ValueOf(Digits(n)) == n
  {
    hide Digit, DigitValue;
    DigitRoundTrip(n % 10);
    if n < 10 {
      assert Digits(n)[..0] == "";
    } else {
      DigitsRoundTrip(n / 10);
      assert Digits(n)[..|Digits(n)| - 1] == Digits(n / 10);
    }
  }

  lemma DecimalRoundTrip(n: i64)
    ensures Parsed(Decimal(n)) == n
  {
    hide Digits, ValueOf;
    var value: int := n;
    if value < 0 {
      DigitsRoundTrip(-value);
      assert Decimal(n)[1..] == Digits(-value);
    } else {
      DigitsRoundTrip(value);
      assert IsDigit(Digits(value)[0]);
    }
  }

  lemma NoColon(n: i64)
    ensures ':' !in Decimal(n)
  {
  }

  // ----- the key -----

  /** `agent-task:{task_id}:seq:{seq}`. */
  function Key(task: string, seqNo: i64): string {
    "agent-task:" + task + ":seq:" + Decimal(seqNo)
  }

  /** How keys are written: by three of them, and by the digits. */
  lemma KeysAreWrittenSo(n: nat)
    requires n < 10
    ensures Key("t", 0) == "agent-task:t:seq:0"
    ensures Key("a:b", 27) == "agent-task:a:b:seq:27"
    ensures Key("", -1) == "agent-task::seq:-1"
    ensures Digit(n) == "0123456789"[n]
  {
    assert Digits(2) == "2";
    assert Digits(27) == Digits(2) + "7" == "27";
    assert Digits(1) == "1";
  }

  lemma EarlierCutHoldsColon(a: string, x: string, b: string, y: string)
    requires a + ":" + x == b + ":" + y && |a| < |b|
    ensures ':' in x
  {
    var s := a + ":" + x;
    assert s[|b|] == (b + ":" + y)[|b|] == ':';
    assert s[|b|] == x[|b| - |a| - 1];
  }

  /** A text is cut at its last colon in one way only. */
  lemma LastColonIsUnique(a: string, x: string, b: string, y: string)
    requires a + ":" + x == b + ":" + y
    requires ':' !in x && ':' !in y
    ensures a == b && x == y
  {
    if |a| < |b| {
      EarlierCutHoldsColon(a, x, b, y);
    } else if |b| < |a| {
      EarlierCutHoldsColon(b, y, a, x);
    } else {
      var s := a + ":" + x;
      assert a == s[..|a|] == (b + ":" + y)[..|b|] == b;
      assert x == s[|a| + 1..] == (b + ":" + y)[|b| + 1..] == y;
    }
  }

  lemma KeyBeforeItsColon(task: string, n: i64)
    ensures Key(task, n) == ("agent-task:" + task + ":seq") + ":" + Decimal(n)
  {
  }

  lemma TaskBetween(task: string, other: string)
    requires "agent-task:" + task + ":seq" == "agent-task:" + other + ":seq"
    ensures task == other
  {
    var a, b := "agent-task:" + task + ":seq", "agent-task:" + other + ":seq";
    assert task == a[11..|a| - 4];
    assert other == b[11..|b| - 4];
  }

  /** The key determines task and number, for every task string, colons, spaces and
      ":seq:" included. */
  lemma KeyIsInjective(task: string, m: i64, other: string, n: i64)
    ensures Key(task, m) == Key(other, n) <==> task == other && m == n
  {
    hide Key, Decimal, Parsed;
    if Key(task, m) == Key(other, n) {
      KeyBeforeItsColon(task, m);
      KeyBeforeItsColon(other, n);
      NoColon(m);
      NoColon(n);
      LastColonIsUnique("agent-task:" + task + ":seq", Decimal(m), "agent-task:" + other + ":seq", Decimal(n));
      TaskBetween(task, other);
      DecimalRoundTrip(m);
      DecimalRoundTrip(n);
    }
  }
}
