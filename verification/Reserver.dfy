/** The number reserver: which transaction numbers are handed out, and which are burnt. */
module Reserver {
  import opened Basics

  /** How many of `taken` lie at or above `from`: the distance a scan can still have to step over. */
  ghost function Above(taken: set<nat>, from: nat): set<nat> {
    set n | n in taken && from <= n
  }

  lemma AboveShrinks(taken: set<nat>, from: nat)
    requires from in taken
    ensures |Above(taken, from + 1)| < |Above(taken, from)|
  {
    assert Above(taken, from + 1) == Above(taken, from) - {from};
  }

  /** The least number at or above `from` outside `taken`. */
  ghost function LeastFree(taken: set<nat>, from: nat): (n: nat)
    ensures from <= n && n !in taken
    ensures forall m | from <= m < n :: m in taken
    decreases |Above(taken, from)|
  {
    if from !in taken then from
    else
      AboveShrinks(taken, from);
      LeastFree(taken, from + 1)
  }

  /** Nothing below the answer of `LeastFree` is free, so no other number has its property. */
  lemma LeastFreeIsUnique(taken: set<nat>, from: nat, n: nat)
    requires from <= n && n !in taken
    requires forall m | from <= m < n :: m in taken
    ensures n == LeastFree(taken, from)
  {
    var least := LeastFree(taken, from);
    if least < n { assert false; }
  }

  /** The run of `count` numbers a bundle takes: each the least free once the earlier ones are taken. */
  ghost function FreeRun(taken: set<nat>, from: nat, count: nat): (run: seq<nat>)
    ensures |run| == count
    decreases count
  {
    if count == 0 then []
    else
      var first := LeastFree(taken, from);
      [first] + FreeRun(taken + {first}, from, count - 1)
  }

  ghost function Numbers(run: seq<nat>): set<nat> { set n | n in run }

  /** A run, read at one place: the least number still free there. */
  lemma {:induction false} FreeRunAt(taken: set<nat>, from: nat, count: nat, i: nat)
    requires i < count
    ensures var run := FreeRun(taken, from, count);
            run[i] == LeastFree(taken + Numbers(run[..i]), from)
    decreases count
  {
    var first := LeastFree(taken, from);
    var run := FreeRun(taken, from, count);
    if i == 0 {
      assert taken + Numbers(run[..0]) == taken;
    } else {
      var rest := FreeRun(taken + {first}, from, count - 1);
      FreeRunAt(taken + {first}, from, count - 1, i - 1);
      assert run == [first] + rest && run[..i] == [first] + rest[..i - 1];
      assert Numbers([first] + rest[..i - 1]) == {first} + Numbers(rest[..i - 1]);
      assert taken + {first} + Numbers(rest[..i - 1]) == taken + Numbers(run[..i]);
    }
  }

  /** An increasing run of free numbers from the reading on that leaves no free one out. */
  ghost predicate LeastFreeRun(run: seq<nat>, taken: set<nat>, from: nat) {
    && (forall i | 0 <= i < |run| :: from <= run[i] && run[i] !in taken)
    && (forall i, j | 0 <= i < j < |run| :: run[i] < run[j])
    && (forall m: nat, i | from <= m && m !in taken && m !in run && 0 <= i < |run| :: run[i] < m)
  }

  lemma LeastFreeRunPrepends(first: nat, rest: seq<nat>, taken: set<nat>, from: nat)
    requires first == LeastFree(taken, from)
    requires LeastFreeRun(rest, taken + {first}, from)
    ensures LeastFreeRun([first] + rest, taken, from)
  {
    var run := [first] + rest;
    assert first in taken + {first};
    forall i | 0 <= i < |run| ensures from <= run[i] && run[i] !in taken && (i > 0 ==> first < run[i]) {
      if i > 0 { assert run[i] == rest[i - 1] && rest[i - 1] !in taken + {first}; }
    }
    forall i, j | 0 <= i < j < |run| ensures run[i] < run[j] {
      if i > 0 { assert run[i] == rest[i - 1] && run[j] == rest[j - 1]; }
    }
    forall m: nat, i | from <= m && m !in taken && m !in run && 0 <= i < |run| ensures run[i] < m {
      assert run[0] == first && m != first && m !in taken + {first};
      assert m !in rest;
      assert i > 0 ==> run[i] == rest[i - 1];
    }
  }

  /** A run holds the `count` least free numbers from the reading on, whatever was read before. */
  lemma {:induction false} FreeRunIsTheLeastFree(taken: set<nat>, from: nat, count: nat)
    ensures LeastFreeRun(FreeRun(taken, from, count), taken, from)
    decreases count
  {
    if count != 0 {
      var first := LeastFree(taken, from);
      FreeRunIsTheLeastFree(taken + {first}, from, count - 1);
      LeastFreeRunPrepends(first, FreeRun(taken + {first}, from, count - 1), taken, from);
    }
  }

  lemma SlotsAreTheirParts(account: Account)
    ensures forall s: Slot | s.account == account :: s == Slot(account, s.number)
  {}

  datatype AccountNonces = AccountNonces(reserved: set<nat>, spent: set<nat>)

  const NO_NONCES := AccountNonces({}, {})

  /** Each account's reserved and spent numbers. */
  class NonceReserver {
    var accounts: map<Account, AccountNonces>

    ghost function Reserved(): (slots: set<Slot>)
      reads this
      ensures forall s :: s in slots <==> s.account in accounts && s.number in accounts[s.account].reserved
    {
      set a, n | a in accounts && n in accounts[a].reserved :: Slot(a, n)
    }

    ghost function Spent(): (slots: set<Slot>)
      reads this
      ensures forall s :: s in slots <==> s.account in accounts && s.number in accounts[s.account].spent
    {
      set a, n | a in accounts && n in accounts[a].spent :: Slot(a, n)
    }

    constructor ()
      ensures Reserved() == {} && Spent() == {}
    {
      accounts := map[];
    }

    function Of(account: Account): (a: AccountNonces)
      reads this
      ensures forall n :: n in a.reserved <==> Slot(account, n) in Reserved()
      ensures forall n :: n in a.spent <==> Slot(account, n) in Spent()
    {
      if account in accounts then accounts[account] else NO_NONCES
    }

    /** Write one account's numbers. */
    method Store(account: Account, a: AccountNonces)
      modifies this
      ensures accounts == old(accounts)[account := a]
      ensures forall s :: s in Reserved() <==>
        if s.account == account then s.number in a.reserved else s in old(Reserved())
      ensures forall s :: s in Spent() <==>
        if s.account == account then s.number in a.spent else s in old(Spent())
    {
      accounts := accounts[account := a];
    }

    /** Scan upwards from the chain's reading and reserve the first number nobody has. */
    method Reserve(account: Account, reading: nat) returns (candidate: nat)
      modifies this
      ensures candidate == LeastFree(old(Of(account)).reserved + old(Of(account)).spent, reading)
      ensures Reserved() == old(Reserved()) + {Slot(account, candidate)}
      ensures Spent() == old(Spent())
    {
      var a := Of(account);
      candidate := reading;
      ghost var taken := a.reserved + a.spent;
      while candidate in a.reserved || candidate in a.spent
        invariant unchanged(this) && reading <= candidate
        invariant forall m | reading <= m < candidate :: m in taken
        decreases |Above(taken, candidate)|
      {
        AboveShrinks(taken, candidate);
        candidate := candidate + 1;
      }
      LeastFreeIsUnique(taken, reading, candidate);
      Put(account, candidate);
    }

    /** Add one number to an account's reserved ones. */
    method Put(account: Account, number: nat)
      modifies this
      ensures Reserved() == old(Reserved()) + {Slot(account, number)}
      ensures Spent() == old(Spent())
    {
      var a := Of(account);
      SlotsAreTheirParts(account);
      Store(account, a.(reserved := a.reserved + {number}));
    }

    /** Reserve this very number, unless it is reserved or spent. */
    method Hold(account: Account, number: nat) returns (taken: bool)
      modifies this
      ensures taken <==> Slot(account, number) !in old(Reserved()) + old(Spent())
      ensures Reserved() == if taken then old(Reserved()) + {Slot(account, number)} else old(Reserved())
      ensures Spent() == old(Spent())
    {
      var a := Of(account);
      SlotsAreTheirParts(account);
      taken := number !in a.spent && number !in a.reserved;
      Store(account, if taken then a.(reserved := a.reserved + {number}) else a);
    }

    /** A one-way door: the number signed something that may be leaving. True when that is new. */
    method MarkSpent(account: Account, number: nat) returns (taken: bool)
      modifies this
      ensures taken <==> Slot(account, number) !in old(Spent())
      ensures Reserved() == old(Reserved()) + {Slot(account, number)}
      ensures Spent() == old(Spent()) + {Slot(account, number)}
    {
      var a := Of(account);
      SlotsAreTheirParts(account);
      taken := number !in a.spent;
      Store(account, AccountNonces(a.reserved + {number}, a.spent + {number}));
    }

    /** Give a number back, unless it was ever spent; an account left with none is forgotten. */
    method Release(account: Account, number: nat)
      modifies this
      ensures Reserved() == if Slot(account, number) in old(Spent()) then old(Reserved())
                            else old(Reserved()) - {Slot(account, number)}
      ensures Spent() == old(Spent())
    {
      SlotsAreTheirParts(account);
      if account !in accounts {
        assert Slot(account, number) !in Reserved();
        return;
      }
      var a := accounts[account];
      if number in a.spent {
        assert Slot(account, number) in Spent();
        return;
      }
      Store(account, a.(reserved := a.reserved - {number}));
      label removed:
      if accounts[account] == NO_NONCES {
        accounts := accounts - {account};
        assert Reserved() == old@removed(Reserved()) && Spent() == old@removed(Spent());
      }
    }

    /** Put a number back: the conservative direction. */
    method Reinstate(account: Account, number: nat)
      modifies this
      ensures Reserved() == old(Reserved()) + {Slot(account, number)}
      ensures Spent() == old(Spent())
    {
      Put(account, number);
    }

    /** How many numbers an account has out. */
    function Outstanding(account: Account): (n: nat)
      reads this
      ensures n == 0 <==> forall m :: Slot(account, m) !in Reserved()
    {
      assert forall m :: m in Of(account).reserved <==> Slot(account, m) in Reserved();
      |Of(account).reserved|
    }
  }
}
