/** The strings under which records are stored, and when two primary keys share one. */
module Keys {
  import opened Values

  /** The number that decimal digits stand for. */
  function Number(s: string): int {
    if s == "" then 0 else 10 * Number(s[..|s| - 1]) + DigitOf(s[|s| - 1])
  }

  function DigitOf(c: char): int {
    c as int - '0' as int
  }

  lemma DigitRead(d: nat)
    requires d < 10
    ensures DigitOf("0123456789"[d]) == d && "0123456789"[d] != '-'
  {
  }

  lemma {:induction false} DigitsRead(n: nat)
    ensures Number(Digits(n)) == n && Digits(n) != "" && Digits(n)[0] != '-'
  {
    var s := Digits(n);
    if n < 10 {
      DigitRead(n);
      assert s[..|s| - 1] == "";
    } else {
      DigitsRead(n / 10);
      DigitRead(n % 10);
      assert s[..|s| - 1] == Digits(n / 10) && s[|s| - 1] == "0123456789"[n % 10];
    }
  }

  /** The whole number that a rendered key stands for. */
  function Signed(s: string): int {
    if s != "" && s[0] == '-' then -Number(s[1..]) else Number(s)
  }

  /** An integer key can be read back, so two integers never share a key. */
  lemma IntegerRead(i: int)
    ensures Signed(Format(Int(i))) == i
  {
    DigitsRead(if i < 0 then -i else i);
    if i < 0 {
      assert Format(Int(i))[1..] == Digits(-i);
    }
  }

  /** Two string keys, or two integer keys, share a record key only if they are equal. */
  lemma KeysDiffer(a: Value, b: Value)
    requires (a.Str? && b.Str?) || (a.Int? && b.Int?)
    ensures Format(a) == Format(b) <==> a == b
  {
    if a.Int? {
      IntegerRead(a.i);
      IntegerRead(b.i);
    }
  }

  /** Of different kinds they can: a string and an integer share a key iff the string is its rendering. */
  lemma KeysShared(s: string, i: int)
    ensures Format(Str(s)) == Format(Int(i)) ==> Signed(s) == i
    ensures Format(Str("7")) == "7" == Format(Int(7))
  {
    IntegerRead(i);
    assert Digits(7) == "7";
  }
}
