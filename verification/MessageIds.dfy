/** The ids the RCM client puts on its messages, and why those outstanding at one time differ. */
module MessageIds {
  /** RcmClient_genMsgId_P: 0 is not a message id. */
  function NextId(id: nat): nat { if id == 0xFFFF then 1 else id + 1 }

  class Ids {
    var msgId: nat

    ghost predicate Valid()
      reads this
    {
      1 <= msgId <= 0xFFFF
    }

    constructor ()
      ensures Valid() && msgId == 0xFFFF
    {
      msgId := 0xFFFF;
    }

    method GenMsgId() returns (id: nat)
      requires Valid()
      modifies this
      ensures Valid() && id == msgId == NextId(old(msgId))
    {
      msgId := if msgId == 0xFFFF then 1 else msgId + 1;
      id := msgId;
    }
  }

  /** The n-th id generated. */
  function IdOf(n: nat): nat { if n == 0 then 0xFFFF else NextId(IdOf(n - 1)) }

  lemma {:induction false} IdIsRemainder(n: nat)
    requires n > 0
    ensures IdOf(n) == 1 + (n - 1) % 0xFFFF
  {
    if n > 1 {
      IdIsRemainder(n - 1);
      Successor(n - 2);
    }
  }

  lemma Successor(x: nat)
    ensures (x + 1) % 0xFFFF == if x % 0xFFFF == 0xFFFE then 0 else x % 0xFFFF + 1
  {
    var q := x / 0xFFFF;
    assert x + 1 == q * 0xFFFF + (x % 0xFFFF + 1);
  }

  lemma EqualRemainders(x: nat, y: nat)
    requires x < y < x + 0xFFFF
    ensures x % 0xFFFF != y % 0xFFFF
  {
    var p, q := x / 0xFFFF, y / 0xFFFF;
    assert y - x == (q - p) * 0xFFFF + (y % 0xFFFF - x % 0xFFFF);
  }

  /** No id is 0, and two messages have the same id only if at least 65535 ids lie between them. */
  lemma IdsDiffer(m: nat, n: nat)
    requires 0 < m < n < m + 0xFFFF
    ensures IdOf(m) != IdOf(n) && IdOf(m) != 0 && IdOf(n) != 0
  {
    IdIsRemainder(m);
    IdIsRemainder(n);
    EqualRemainders(m - 1, n - 1);
  }
}
