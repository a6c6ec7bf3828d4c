/** The per-member credit/debt calculation of the group ledger
    (`calculationOfCreditAndDebt`, src/services/group.ts:4-32).

    JavaScript numbers are modelled as exact reals: sums do not depend on
    the order of addition and `(t / n) * n` is exactly `t`. */
module Settlement {
  import opened Wrappers
  import opened GroupSchema

  datatype Settlement = Settlement(credit: real, debt: real, balance: real)

  /** The subject is not in the member list: in the service this is the
      TypeError of reading `num` from `undefined`. */
  datatype CalcError = NotAMember

  /** Whether the ledger is read as the source is written or as it is
      evidently meant, at the two places where they differ: the debt share
      of a head-count item (`t - ((t / n) * n - 1)` as written, `t - (t / n)
      * (n - 1)` as meant) and the key items are grouped under (see module
      Grouping). Everything else is the same under both. */
  datatype Reading = AsWritten | Intended

  // ---------------------------------------------------------------------
  // Inputs of the calculation
  // ---------------------------------------------------------------------

  /** The sum of every member's weight (`allMembersCount`). */
  function TotalWeight(members: seq<Member>): (w: int)
    ensures w >= |members|
  {
    if members == [] then 0 else members[0].num + TotalWeight(members[1..])
  }

  /** The index of the first member whose phone number is `phone`, or
      `|members|` when there is none (`members.filter(...)[0]`). */
  function IndexOf(members: seq<Member>, phone: string): (k: nat)
    ensures k <= |members|
    ensures k < |members| ==> members[k].phonenumber == phone
    ensures forall j :: 0 <= j < k ==> members[j].phonenumber != phone
  {
    if members == [] then 0
    else if members[0].phonenumber == phone then 0
    else 1 + IndexOf(members[1..], phone)
  }

  /** An item's cost, `unit * count`. */
  function Cost(item: Item): real
  {
    item.unit * item.count
  }

  predicate IsHeadCount(item: Item)
  {
    item.status == NumberOfHeads
  }

  // ---------------------------------------------------------------------
  // Shares of one item
  // ---------------------------------------------------------------------

  /** What the payer of `item` is owed back: the cost less one even share
      (head count) or less the payer's own weighted share (any other
      status). `n` is the number of member entries, `total` the total
      weight and `weight` the payer's weight. */
  function CreditShare(item: Item, n: nat, total: int, weight: int): (r: real)
    requires n > 0 && total > 0
    ensures r + DebtShare(Intended, item, n, total, weight) == Cost(item)
  {
    var t := Cost(item);
    t - (if IsHeadCount(item) then t / n as real else (t / total as real) * weight as real)
  }

  /** What the subject owes for an `item` someone else paid. */
  function DebtShare(reading: Reading, item: Item, n: nat, total: int, weight: int): (r: real)
    requires n > 0 && total > 0
    ensures IsHeadCount(item) && reading == AsWritten ==> r == 1.0
    ensures IsHeadCount(item) && reading == Intended ==> r == Cost(item) / n as real
    ensures !IsHeadCount(item) ==> r == Cost(item) * weight as real / total as real
  {
    var t := Cost(item);
    t - (if IsHeadCount(item) then
           match reading
           case AsWritten => (t / n as real) * n as real - 1.0
           case Intended => (t / n as real) * (n - 1) as real
         else (t / total as real) * (total - weight) as real)
  }

  /** As written, every head-count item paid by someone else adds exactly 1
      to the debt, whatever it cost. */
  lemma {:induction false} HeadCountDebtIsOne(item: Item, n: nat, total: int, weight: int)
    requires n > 0 && total > 0 && IsHeadCount(item)
    ensures DebtShare(AsWritten, item, n, total, weight) == 1.0
  {
  }

  /** Read as intended, a head-count item paid by someone else costs the
      subject one even share. */
  lemma {:induction false} IntendedHeadCountDebtIsEvenShare(item: Item, n: nat, total: int, weight: int)
    requires n > 0 && total > 0 && IsHeadCount(item)
    ensures DebtShare(Intended, item, n, total, weight) == Cost(item) / n as real
  {
  }

  /** A weight-split item paid by someone else costs the subject its own
      weighted share, `t * weight / total`, under both readings. */
  lemma {:induction false} WeightDebtIsOwnShare(reading: Reading, item: Item, n: nat, total: int, weight: int)
    requires n > 0 && total > 0 && !IsHeadCount(item)
    ensures DebtShare(reading, item, n, total, weight) == Cost(item) * weight as real / total as real
  {
  }

  /** A status outside the schema's enum (the `$push` of new items does not
      run the enum validator) is charged exactly like `number-of-members`. */
  lemma {:induction false} UnknownStatusSplitsByWeight(reading: Reading, item: Item, n: nat, total: int, weight: int)
    requires n > 0 && total > 0 && !IsSchemaStatus(item.status)
    ensures !IsHeadCount(item)
    ensures CreditShare(item, n, total, weight) == CreditShare(item.(status := NumberOfMembers), n, total, weight)
    ensures DebtShare(reading, item, n, total, weight) == DebtShare(reading, item.(status := NumberOfMembers), n, total, weight)
  {
  }

  // ---------------------------------------------------------------------
  // Sums over the item list
  // ---------------------------------------------------------------------

  /** Credit: the credit shares of the items `subject` paid for. */
  function Credit(subject: string, items: seq<Item>, n: nat, total: int, weight: int): (r: real)
    requires n > 0 && total > 0
    ensures (forall i :: 0 <= i < |items| ==> items[i].creator != subject) ==> r == 0.0
  {
    if items == [] then 0.0
    else (if items[0].creator == subject then CreditShare(items[0], n, total, weight) else 0.0)
         + Credit(subject, items[1..], n, total, weight)
  }

  /** Debt: the debt shares of every item whose creator is not `subject`,
      including items whose creator is not a member at all. */
  function Debt(reading: Reading, subject: string, items: seq<Item>, n: nat, total: int, weight: int): (r: real)
    requires n > 0 && total > 0
    ensures (forall i :: 0 <= i < |items| ==> items[i].creator == subject) ==> r == 0.0
  {
    if items == [] then 0.0
    else (if items[0].creator != subject then DebtShare(reading, items[0], n, total, weight) else 0.0)
         + Debt(reading, subject, items[1..], n, total, weight)
  }

  /** The calculation for `subject`. It fails exactly when no member has the
      subject's phone number; otherwise it uses the first such member's
      weight and manual balance (absent reads as 0), and the returned
      balance is credit plus manual balance minus debt. */
  function Calculate(reading: Reading, subject: string, items: seq<Item>, members: seq<Member>): (r: Result<Settlement, CalcError>)
    ensures r.Err? <==> forall i :: 0 <= i < |members| ==> members[i].phonenumber != subject
    ensures r.Ok? ==>
              var user := members[IndexOf(members, subject)];
              && r.value.credit == Credit(subject, items, |members|, TotalWeight(members), user.num)
              && r.value.debt == Debt(reading, subject, items, |members|, TotalWeight(members), user.num)
              && r.value.balance == r.value.credit + user.balance.GetOr(0.0) - r.value.debt
  {
    var k := IndexOf(members, subject);
    if k == |members| then Err(NotAMember)
    else
      var user := members[k];
      var credit := Credit(subject, items, |members|, TotalWeight(members), user.num);
      var debt := Debt(reading, subject, items, |members|, TotalWeight(members), user.num);
      Ok(Settlement(credit, debt, credit + user.balance.GetOr(0.0) - debt))
  }

  /** `calculationOfCreditAndDebt` exactly as the service computes it. */
  function CreditAndDebt(subject: string, items: seq<Item>, members: seq<Member>): (r: Result<Settlement, CalcError>)
    ensures r.Err? <==> forall i :: 0 <= i < |members| ==> members[i].phonenumber != subject
    ensures r.Ok? ==> r.value.balance == r.value.credit + members[IndexOf(members, subject)].balance.GetOr(0.0) - r.value.debt
  {
    Calculate(AsWritten, subject, items, members)
  }

  // ---------------------------------------------------------------------
  // Properties of one member's figures
  // ---------------------------------------------------------------------

  /** A member who paid for nothing has no credit. */
  lemma {:induction false} NoCreditWithoutOwnItems(subject: string, items: seq<Item>, n: nat, total: int, weight: int)
    requires n > 0 && total > 0
    requires forall i :: 0 <= i < |items| ==> items[i].creator != subject
    ensures Credit(subject, items, n, total, weight) == 0.0
  {
    if items != [] {
      NoCreditWithoutOwnItems(subject, items[1..], n, total, weight);
    }
  }

  /** The number of items paid by someone other than `subject`. */
  function ForeignCount(subject: string, items: seq<Item>): nat
  {
    if items == [] then 0
    else (if items[0].creator != subject then 1 else 0) + ForeignCount(subject, items[1..])
  }

  /** As written, when every item is split by head count a member's debt is
      just the number of items someone else paid for. */
  lemma {:induction false} HeadCountDebtCountsItems(subject: string, items: seq<Item>, n: nat, total: int, weight: int)
    requires n > 0 && total > 0
    requires forall i :: 0 <= i < |items| ==> IsHeadCount(items[i])
    ensures Debt(AsWritten, subject, items, n, total, weight) == ForeignCount(subject, items) as real
  {
    if items != [] {
      HeadCountDebtIsOne(items[0], n, total, weight);
      HeadCountDebtCountsItems(subject, items[1..], n, total, weight);
    }
  }

  /** The two readings differ only on head-count items: without any, the
      debts agree. */
  lemma {:induction false} DebtAgreesWithoutHeadCount(subject: string, items: seq<Item>, n: nat, total: int, weight: int)
    requires n > 0 && total > 0
    requires forall i :: 0 <= i < |items| ==> !IsHeadCount(items[i])
    ensures Debt(AsWritten, subject, items, n, total, weight) == Debt(Intended, subject, items, n, total, weight)
  {
    if items != [] {
      DebtAgreesWithoutHeadCount(subject, items[1..], n, total, weight);
    }
  }

  /** Hence the service's calculation and the intended one give the same
      figures for every member when no item is split by head count. */
  lemma {:induction false} CalculationsAgreeWithoutHeadCount(subject: string, items: seq<Item>, members: seq<Member>)
    requires forall i :: 0 <= i < |items| ==> !IsHeadCount(items[i])
    ensures CreditAndDebt(subject, items, members) == Calculate(Intended, subject, items, members)
  {
    var k := IndexOf(members, subject);
    if k < |members| {
      DebtAgreesWithoutHeadCount(subject, items, |members|, TotalWeight(members), members[k].num);
    }
  }

  // ---------------------------------------------------------------------
  // Zero sum over the whole group
  // ---------------------------------------------------------------------

  ghost predicate UniquePhones(members: seq<Member>)
  {
    forall i, j :: 0 <= i < j < |members| ==> members[i].phonenumber != members[j].phonenumber
  }

  ghost predicate IsMember(members: seq<Member>, phone: string)
  {
    exists j :: 0 <= j < |members| && members[j].phonenumber == phone
  }

  ghost predicate CreatorsAreMembers(items: seq<Item>, members: seq<Member>)
  {
    forall i :: 0 <= i < |items| ==> IsMember(members, items[i].creator)
  }

  /** A member's credit minus debt, or 0 for a phone number that is not a
      member. */
  function Net(reading: Reading, subject: string, items: seq<Item>, members: seq<Member>): real
  {
    match Calculate(reading, subject, items, members)
    case Ok(s) => s.credit - s.debt
    case Err(_) => 0.0
  }

  /** Credit minus debt summed over the members listed in `ms`, each
      computed against the whole group `members`. */
  function SumOfNets(reading: Reading, ms: seq<Member>, items: seq<Item>, members: seq<Member>): real
  {
    if ms == [] then 0.0
    else Net(reading, ms[0].phonenumber, items, members) + SumOfNets(reading, ms[1..], items, members)
  }

  /** How one item moves a member's credit minus debt. */
  function Contribution(reading: Reading, m: Member, item: Item, n: nat, total: int): real
    requires n > 0 && total > 0
  {
    if item.creator == m.phonenumber then CreditShare(item, n, total, m.num)
    else -DebtShare(reading, item, n, total, m.num)
  }

  /** Credit minus debt summed over `ms`, with each member's own weight. */
  function SumOfBalances(reading: Reading, ms: seq<Member>, items: seq<Item>, n: nat, total: int): real
    requires n > 0 && total > 0
  {
    if ms == [] then 0.0
    else (Credit(ms[0].phonenumber, items, n, total, ms[0].num) - Debt(reading, ms[0].phonenumber, items, n, total, ms[0].num))
         + SumOfBalances(reading, ms[1..], items, n, total)
  }

  /** `f` summed over the entries of `ms`. */
  function SumOver(f: Member -> real, ms: seq<Member>): real
  {
    if ms == [] then 0.0 else f(ms[0]) + SumOver(f, ms[1..])
  }

  /** `Contribution` for one item, as a function of the member. */
  function ContributionOf(reading: Reading, item: Item, n: nat, total: int): Member -> real
    requires n > 0 && total > 0
  {
    m => Contribution(reading, m, item, n, total)
  }

  /** One item's contributions summed over `ms`. */
  function SumOfContributions(reading: Reading, ms: seq<Member>, item: Item, n: nat, total: int): real
    requires n > 0 && total > 0
  {
    SumOver(ContributionOf(reading, item, n, total), ms)
  }

  /** The cost `t` for the member whose phone number is `payer`, nothing for
      anyone else. */
  function Paid(payer: string, t: real): Member -> real
  {
    (m: Member) => if m.phonenumber == payer then t else 0.0
  }

  /** `s` for every share unit a member carries for `item`. */
  function Shares(item: Item, s: real): Member -> real
  {
    (m: Member) => s * Units(item, m) as real
  }

  /** The size of one share of `item`: an even share for head count, the
      share of one unit of weight otherwise. */
  function ShareUnit(item: Item, n: nat, total: int): real
    requires n > 0 && total > 0
  {
    if IsHeadCount(item) then Cost(item) / n as real else Cost(item) / total as real
  }

  /** How many share units a member carries: one for head count, its
      weight otherwise. */
  function Units(item: Item, m: Member): int
  {
    if IsHeadCount(item) then 1 else m.num
  }

  /** The share units of every entry of `ms`. */
  function UnitsOf(item: Item, ms: seq<Member>): int
  {
    if IsHeadCount(item) then |ms| else TotalWeight(ms)
  }

  /** A sum of differences is the difference of the sums. */
  lemma {:induction false} SumOverDifference(f: Member -> real, p: Member -> real, g: Member -> real, ms: seq<Member>)
    requires forall m: Member :: f(m) == p(m) - g(m)
    ensures SumOver(f, ms) == SumOver(p, ms) - SumOver(g, ms)
  {
    if ms != [] {
      SumOverDifference(f, p, g, ms[1..]);
    }
  }

  /** Nobody in `ms` paid: the paid amounts sum to nothing. */
  lemma {:induction false} PaidAbsent(payer: string, t: real, ms: seq<Member>)
    requires !IsMember(ms, payer)
    ensures SumOver(Paid(payer, t), ms) == 0.0
  {
    if ms != [] {
      assert !IsMember(ms[1..], payer) by {
        forall j | 0 <= j < |ms[1..]| ensures ms[1..][j].phonenumber != payer {
          assert ms[1..][j] == ms[j + 1];
        }
      }
      PaidAbsent(payer, t, ms[1..]);
    }
  }

  /** With unique phone numbers, a payer who is a member is counted once:
      the paid amounts sum to the cost. */
  lemma {:induction false} PaidOnce(payer: string, t: real, ms: seq<Member>)
    requires UniquePhones(ms) && IsMember(ms, payer)
    ensures SumOver(Paid(payer, t), ms) == t
  {
    var j :| 0 <= j < |ms| && ms[j].phonenumber == payer;
    if j == 0 {
      assert !IsMember(ms[1..], payer) by {
        forall i | 0 <= i < |ms[1..]| ensures ms[1..][i].phonenumber != payer {
          assert ms[1..][i] == ms[i + 1];
        }
      }
      PaidAbsent(payer, t, ms[1..]);
    } else {
      assert ms[1..][j - 1] == ms[j];
      PaidOnce(payer, t, ms[1..]);
    }
  }

  lemma {:induction false} Distribute(s: real, a: real, b: real, c: real)
    requires c == a + b
    ensures s * c == s * a + s * b
  {
  }

  /** The shares of every entry of `ms` add up to `s` times their share
      units. */
  lemma {:induction false} SumOfShares(item: Item, s: real, ms: seq<Member>)
    ensures SumOver(Shares(item, s), ms) == s * UnitsOf(item, ms) as real
  {
    if ms != [] {
      SumOfShares(item, s, ms[1..]);
      Distribute(s, Units(item, ms[0]) as real, UnitsOf(item, ms[1..]) as real, UnitsOf(item, ms) as real);
    } else {
      assert UnitsOf(item, ms) as real == 0.0;
    }
  }

  /** Read as intended, an item moves the payer by the cost less their
      share, and every other member by minus their share. */
  lemma {:induction false} IntendedContribution(m: Member, item: Item, n: nat, total: int)
    requires n > 0 && total > 0
    ensures Contribution(Intended, m, item, n, total)
            == Paid(item.creator, Cost(item))(m) - Shares(item, ShareUnit(item, n, total))(m)
  {
    var t := Cost(item);
    if IsHeadCount(item) {
      var q := t / n as real;
      assert q * n as real == t;
      assert q * (n - 1) as real == q * n as real - q;
    } else {
      var q := t / total as real;
      assert q * total as real == t;
      assert q * (total - m.num) as real == q * total as real - q * m.num as real;
    }
  }

  /** Summing over members commutes with splitting off the first item. */
  lemma {:induction false} SumOfBalancesFirstItem(reading: Reading, ms: seq<Member>, items: seq<Item>, n: nat, total: int)
    requires n > 0 && total > 0 && items != []
    ensures SumOfBalances(reading, ms, items, n, total)
            == SumOfContributions(reading, ms, items[0], n, total) + SumOfBalances(reading, ms, items[1..], n, total)
  {
    if ms != [] {
      SumOfBalancesFirstItem(reading, ms[1..], items, n, total);
    }
  }

  /** Without items every member's credit minus debt is zero, and so is
      the group's sum of them. */
  lemma {:induction false} NoItemsNoBalances(reading: Reading, ms: seq<Member>, n: nat, total: int)
    requires n > 0 && total > 0
    ensures forall m :: m in ms ==> Credit(m.phonenumber, [], n, total, m.num) - Debt(reading, m.phonenumber, [], n, total, m.num) == 0.0
    ensures SumOfBalances(reading, ms, [], n, total) == 0.0
  {
    if ms != [] {
      NoItemsNoBalances(reading, ms[1..], n, total);
    }
  }

  lemma {:induction false} DivideThenMultiply(t: real, d: real)
    requires d != 0.0
    ensures (t / d) * d == t
  {
  }

  /** One share unit times the share units of the whole group is the
      item's whole cost. */
  lemma {:induction false} ShareUnitsCoverCost(item: Item, members: seq<Member>)
    requires members != []
    ensures ShareUnit(item, |members|, TotalWeight(members)) * UnitsOf(item, members) as real == Cost(item)
  {
    if IsHeadCount(item) {
      DivideThenMultiply(Cost(item), |members| as real);
    } else {
      DivideThenMultiply(Cost(item), TotalWeight(members) as real);
    }
  }

  /** Read as intended, one item's contributions sum to what its payer paid
      less every entry's share. */
  lemma {:induction false} IntendedSumOfContributions(item: Item, ms: seq<Member>, n: nat, total: int)
    requires n > 0 && total > 0
    ensures SumOfContributions(Intended, ms, item, n, total)
            == SumOver(Paid(item.creator, Cost(item)), ms) - SumOver(Shares(item, ShareUnit(item, n, total)), ms)
  {
    forall m: Member
      ensures ContributionOf(Intended, item, n, total)(m)
              == Paid(item.creator, Cost(item))(m) - Shares(item, ShareUnit(item, n, total))(m)
    {
      IntendedContribution(m, item, n, total);
    }
    SumOverDifference(ContributionOf(Intended, item, n, total), Paid(item.creator, Cost(item)), Shares(item, ShareUnit(item, n, total)), ms);
  }

  /** Read as intended, one item paid by a member of a group with unique
      phone numbers moves the group's members by amounts that cancel. */
  lemma {:induction false} ItemContributionsCancel(item: Item, members: seq<Member>)
    requires members != [] && UniquePhones(members) && IsMember(members, item.creator)
    ensures SumOfContributions(Intended, members, item, |members|, TotalWeight(members)) == 0.0
  {
    var n, total := |members|, TotalWeight(members);
    var s := ShareUnit(item, n, total);
    IntendedSumOfContributions(item, members, n, total);
    PaidOnce(item.creator, Cost(item), members);
    SumOfShares(item, s, members);
    ShareUnitsCoverCost(item, members);
  }

  /** Intended figures over a whole group with unique phone numbers, whose
      items were all paid by members, sum to zero. */
  lemma {:induction false} IntendedSumOfBalancesIsZero(items: seq<Item>, members: seq<Member>)
    requires members != [] && UniquePhones(members) && CreatorsAreMembers(items, members)
    ensures SumOfBalances(Intended, members, items, |members|, TotalWeight(members)) == 0.0
  {
    if items != [] {
      var n, total := |members|, TotalWeight(members);
      SumOfBalancesFirstItem(Intended, members, items, n, total);
      ItemContributionsCancel(items[0], members);
      assert CreatorsAreMembers(items[1..], members) by {
        forall i | 0 <= i < |items[1..]| ensures IsMember(members, items[1..][i].creator) {
          assert items[1..][i] == items[i + 1];
        }
      }
      IntendedSumOfBalancesIsZero(items[1..], members);
    } else {
      NoItemsNoBalances(Intended, members, |members|, TotalWeight(members));
    }
  }

  /** With unique phone numbers, each member is the first match of its own
      phone number. */
  lemma {:induction false} UniqueIndexOf(members: seq<Member>, i: nat)
    requires UniquePhones(members) && i < |members|
    ensures IndexOf(members, members[i].phonenumber) == i
  {
  }

  /** With unique phone numbers, the calculation's sum over the group is the
      sum with each member's own weight. */
  lemma {:induction false} SumOfNetsIsSumOfBalances(reading: Reading, k: nat, items: seq<Item>, members: seq<Member>)
    requires UniquePhones(members) && k <= |members| && members != []
    ensures SumOfNets(reading, members[k..], items, members)
            == SumOfBalances(reading, members[k..], items, |members|, TotalWeight(members))
    decreases |members| - k
  {
    if k < |members| {
      UniqueIndexOf(members, k);
      assert members[k..][1..] == members[k + 1..];
      SumOfNetsIsSumOfBalances(reading, k + 1, items, members);
    }
  }

  /** Read as intended, the members' credit minus debt over a group with
      unique phone numbers whose items were all paid by members sums to
      zero, whatever the split of each item. */
  lemma {:induction false} IntendedIsZeroSum(items: seq<Item>, members: seq<Member>)
    requires UniquePhones(members) && CreatorsAreMembers(items, members)
    ensures SumOfNets(Intended, members, items, members) == 0.0
  {
    if members != [] {
      SumOfNetsIsSumOfBalances(Intended, 0, items, members);
      assert members[0..] == members;
      IntendedSumOfBalancesIsZero(items, members);
    }
  }

  /** The service's own calculation is zero-sum when every item is split by
      weight (unique phone numbers, every payer a member). */
  lemma {:induction false} WeightSplitIsZeroSum(items: seq<Item>, members: seq<Member>)
    requires UniquePhones(members) && CreatorsAreMembers(items, members)
    requires forall i :: 0 <= i < |items| ==> !IsHeadCount(items[i])
    ensures SumOfNets(AsWritten, members, items, members) == 0.0
  {
    IntendedIsZeroSum(items, members);
    SameNets(0, items, members);
    assert members[0..] == members;
  }

  lemma {:induction false} SameNets(k: nat, items: seq<Item>, members: seq<Member>)
    requires k <= |members|
    requires forall i :: 0 <= i < |items| ==> !IsHeadCount(items[i])
    ensures SumOfNets(AsWritten, members[k..], items, members) == SumOfNets(Intended, members[k..], items, members)
    decreases |members| - k
  {
    if k < |members| {
      CalculationsAgreeWithoutHeadCount(members[k].phonenumber, items, members);
      assert members[k..][1..] == members[k + 1..];
      SameNets(k + 1, items, members);
    }
  }

  // ---------------------------------------------------------------------
  // Worked examples
  // ---------------------------------------------------------------------

  /** A (weight 2) pays 300 split by weight in a group with B (weight 1):
      A is owed 100 and B owes 100, B's third of the cost. */
  lemma {:induction false} WeightSplitExample()
    ensures var ms := [Member("A", 2, Some(0.0)), Member("B", 1, Some(0.0))];
            var items := [Item("rice", 1.0, 300.0, "A", NumberOfMembers)];
            && CreditAndDebt("A", items, ms) == Ok(Settlement(100.0, 0.0, 100.0))
            && CreditAndDebt("B", items, ms) == Ok(Settlement(0.0, 100.0, -100.0))
  {
    var ms := [Member("A", 2, Some(0.0)), Member("B", 1, Some(0.0))];
    var rice := Item("rice", 1.0, 300.0, "A", NumberOfMembers);
    var items := [rice];
    assert !IsHeadCount(rice);
    assert ms[1..][1..] == [];
    assert TotalWeight(ms) == 3;
    assert IndexOf(ms, "A") == 0 && IndexOf(ms, "B") == 1;
    assert items[1..] == [];
    assert Cost(rice) == 300.0;
    assert Credit("A", items, 2, 3, 2) == CreditShare(rice, 2, 3, 2) == 100.0;
    assert Debt(AsWritten, "A", items, 2, 3, 2) == 0.0;
    assert Credit("B", items, 2, 3, 1) == 0.0;
    assert Debt(AsWritten, "B", items, 2, 3, 1) == DebtShare(AsWritten, rice, 2, 3, 1) == 100.0;
  }

  /** The same cost split by head count: as written A is owed 150 but B owes
      only 1, so the group no longer sums to zero; read as intended B owes
      150. */
  lemma {:induction false} HeadCountExample()
    ensures var ms := [Member("A", 2, Some(0.0)), Member("B", 1, Some(0.0))];
            var items := [Item("rice", 1.0, 300.0, "A", NumberOfHeads)];
            && CreditAndDebt("A", items, ms) == Ok(Settlement(150.0, 0.0, 150.0))
            && CreditAndDebt("B", items, ms) == Ok(Settlement(0.0, 1.0, -1.0))
            && Calculate(Intended, "B", items, ms) == Ok(Settlement(0.0, 150.0, -150.0))
            && SumOfNets(AsWritten, ms, items, ms) == 149.0
  {
    var ms := [Member("A", 2, Some(0.0)), Member("B", 1, Some(0.0))];
    var rice := Item("rice", 1.0, 300.0, "A", NumberOfHeads);
    var items := [rice];
    assert IsHeadCount(rice);
    assert ms[1..][1..] == [];
    assert TotalWeight(ms) == 3;
    assert IndexOf(ms, "A") == 0 && IndexOf(ms, "B") == 1;
    assert items[1..] == [];
    assert Cost(rice) == 300.0;
    assert Credit("A", items, 2, 3, 2) == CreditShare(rice, 2, 3, 2) == 150.0;
    assert Debt(AsWritten, "A", items, 2, 3, 2) == 0.0;
    assert Credit("B", items, 2, 3, 1) == 0.0;
    assert Debt(AsWritten, "B", items, 2, 3, 1) == DebtShare(AsWritten, rice, 2, 3, 1) == 1.0;
    assert Debt(Intended, "B", items, 2, 3, 1) == DebtShare(Intended, rice, 2, 3, 1) == 150.0;
    assert Net(AsWritten, "A", items, ms) == 150.0;
    assert Net(AsWritten, "B", items, ms) == -1.0;
    assert SumOfNets(AsWritten, ms[1..], items, ms) == -1.0;
  }
}
