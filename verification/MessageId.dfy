/** The unique identifier of a broadcast: server name, dash, decimal counter. */
module MessageId {

  function Digit(d: nat): char
    requires d < 10
  {
    ('0' as int + d) as char
  }

  function Decimal(n: nat): (s: string)
    ensures |s| > 0
    ensures forall i :: 0 <= i < |s| ==> '0' <= s[i] <= '9'
  {
    if n < 10 then [Digit(n)] else Decimal(n / 10) + [Digit(n % 10)]
  }

  /** What a string of digits denotes; the independent reading of Decimal. */
  function Value(s: string): int {
    if s == [] then 0
    else 10 * Value(s[..|s| - 1]) + (s[|s| - 1] as int - '0' as int)
  }

  lemma {:induction false} DecimalDenotes(n: nat)
    ensures Value(Decimal(n)) == n
  {
    if n < 10 {
      assert Decimal(n)[..0] == [];
    } else {
      DecimalDenotes(n / 10);
      assert Decimal(n)[..|Decimal(n)| - 1] == Decimal(n / 10);
    }
  }

  function MsgId(name: string, sequence: nat): string {
    name + "-" + Decimal(sequence)
  }

  /** The dash that ends the name is the last one: the shorter tail cannot hide it. */
  lemma TailsAlign(n1: string, t1: string, n2: string, t2: string)
    requires n1 + "-" + t1 == n2 + "-" + t2
    requires forall i :: 0 <= i < |t1| ==> t1[i] != '-'
    requires forall i :: 0 <= i < |t2| ==> t2[i] != '-'
    ensures n1 == n2 && t1 == t2
  {
    var whole := n1 + "-" + t1;
    assert whole[|n1|] == '-' && whole[|n2|] == '-';
    assert |n1| == |n2|;
    assert whole[..|n1|] == n1 && whole[..|n2|] == n2;
    assert whole[|n1| + 1..] == t1 && whole[|n2| + 1..] == t2;
  }

  /** Two broadcasts share an identifier only if the same server gave both the same number. */
  lemma MsgIdInjective(n1: string, k1: nat, n2: string, k2: nat)
    ensures MsgId(n1, k1) == MsgId(n2, k2) <==> n1 == n2 && k1 == k2
  {
    if MsgId(n1, k1) == MsgId(n2, k2) {
      TailsAlign(n1, Decimal(k1), n2, Decimal(k2));
      DecimalDenotes(k1);
      DecimalDenotes(k2);
    }
  }

  /** How an identifier is read: the name up to the last dash, the number after it. */
  lemma MsgIdReads(name: string, sequence: nat)
    ensures var id, i := MsgId(name, sequence), |name|;
            && i < |id| && id[i] == '-' && id[..i] == name
            && Value(id[i + 1..]) == sequence
            && forall j :: i < j < |id| ==> '0' <= id[j] <= '9'
  {
    DecimalDenotes(sequence);
    var id := MsgId(name, sequence);
    assert id[|name| + 1..] == Decimal(sequence);
    forall j | |name| < j < |id| ensures '0' <= id[j] <= '9' {
      assert id[j] == Decimal(sequence)[j - |name| - 1];
    }
  }
}
