/** The group service (src/services/group.ts:44-165): the read-side views
    of a member's groups, and the in-place updates of the group and user
    collections.

    The two MongoDB collections are fields of `GroupService`: `groups` for
    the group documents, `userGroups` for the `groups` array of each user
    document, keyed by phone number. */
module GroupService {
  import opened Wrappers
  import opened GroupSchema
  import opened Settlement
  import opened Grouping

  // ---------------------------------------------------------------------
  // Views: GetAll and GetOne (src/services/group.ts:96-126)
  // ---------------------------------------------------------------------

  /** The key items are grouped under for the given reading. */
  function GroupKey(reading: Reading): Item -> string
  {
    match reading
    case AsWritten => GroupField
    case Intended => NameField
  }

  /** A group as the member sees it: the stored fields without `key` and
      `__v`, the member's settlement, and the items bucketed. */
  datatype GroupView = GroupView(
    id: GroupId,
    name: string,
    image: string,
    wallet: real,
    disabled: bool,
    creator: string,
    members: seq<Member>,
    credit: real,
    debt: real,
    balance: real,
    items: seq<Bucket>)

  /** The projection of one group for `subject`; it fails when the subject
      is not among the group's members. */
  function View(reading: Reading, subject: string, g: Group): (r: Result<GroupView, CalcError>)
    ensures r.Err? <==> !IsMember(g.members, subject)
  {
    match Calculate(reading, subject, g.items, g.members)
    case Err(e) => Err(e)
    case Ok(s) =>
      Ok(GroupView(g.id, g.name, g.image, g.wallet, g.disabled, g.creator, g.members,
                   s.credit, s.debt, s.balance, Grouped(g.items, GroupKey(reading))))
  }

  /** The view does not depend on the dropped fields `key` and `__v`. */
  lemma ViewIgnoresKeyAndVersion(reading: Reading, subject: string, g: Group, key: string, version: nat)
    ensures View(reading, subject, g.(key := key, version := version)) == View(reading, subject, g)
  {
  }

  /** The view keeps the stored fields, carries the member's settlement and
      holds every item in exactly one bucket. */
  lemma ViewContents(reading: Reading, subject: string, g: Group)
    requires IsMember(g.members, subject)
    ensures var v := View(reading, subject, g).value;
            var s := Calculate(reading, subject, g.items, g.members).value;
            && v.id == g.id && v.name == g.name && v.image == g.image && v.wallet == g.wallet
            && v.disabled == g.disabled && v.creator == g.creator && v.members == g.members
            && v.credit == s.credit && v.debt == s.debt && v.balance == s.balance
            && v.items == Grouped(g.items, GroupKey(reading))
            && TotalSize(v.items) == |g.items|
  {
    SizesSumToLength(g.items, GroupKey(reading));
  }

  /** `GetAll`: every group of the user, in order, projected; the first
      group the user is not a member of makes the whole call fail. */
  function GetAll(reading: Reading, subject: string, groups: seq<Group>): (r: Result<seq<GroupView>, CalcError>)
    ensures r.Ok? <==> forall i :: 0 <= i < |groups| ==> IsMember(groups[i].members, subject)
    ensures r.Ok? ==> |r.value| == |groups| && forall i :: 0 <= i < |groups| ==> View(reading, subject, groups[i]) == Ok(r.value[i])
  {
    if groups == [] then Ok([])
    else
      match View(reading, subject, groups[0])
      case Err(e) => Err(e)
      case Ok(v) =>
        match GetAll(reading, subject, groups[1..])
        case Err(e) => Err(e)
        case Ok(vs) => Ok([v] + vs)
  }

  /** The groups with id `id`, in order (`user.groups.filter(...)`). */
  function WithId(groups: seq<Group>, id: GroupId): (r: seq<Group>)
    ensures forall g :: g in r ==> g in groups && g.id == id
    ensures forall i :: 0 <= i < |groups| && groups[i].id == id ==> groups[i] in r
  {
    if groups == [] then []
    else (if groups[0].id == id then [groups[0]] else []) + WithId(groups[1..], id)
  }

  /** The filter keeps one group per index whose group has the id, so
      `|WithId(groups, id)| == 1` means exactly one group has it. */
  lemma WithIdCountsMatches(groups: seq<Group>, id: GroupId)
    ensures |WithId(groups, id)| == |set i | 0 <= i < |groups| && groups[i].id == id|
  {
    WithIdCountFrom(groups, id, 0);
    assert groups[0..] == groups;
  }

  lemma {:induction false} WithIdCountFrom(groups: seq<Group>, id: GroupId, k: nat)
    requires k <= |groups|
    ensures |WithId(groups[k..], id)| == |set i | k <= i < |groups| && groups[i].id == id|
    decreases |groups| - k
  {
    if k < |groups| {
      WithIdCountFrom(groups, id, k + 1);
      assert groups[k..][1..] == groups[k + 1..];
      MatchesFromSplit(groups, id, k);
    }
  }

  /** The matching indices from `k` on are those from `k + 1` on, plus `k`
      itself when it matches. */
  lemma MatchesFromSplit(groups: seq<Group>, id: GroupId, k: nat)
    requires k < |groups|
    ensures |set i | k <= i < |groups| && groups[i].id == id|
            == (if groups[k].id == id then 1 else 0) + |set i | k + 1 <= i < |groups| && groups[i].id == id|
  {
    var all := set i | k <= i < |groups| && groups[i].id == id;
    var rest := set i | k + 1 <= i < |groups| && groups[i].id == id;
    if groups[k].id == id {
      assert all == {k} + rest;
      assert k !in rest;
    } else {
      assert all == rest;
    }
  }

  /** `GetOne`: the projected group when exactly one group has the id, and
      the empty object (`None`) otherwise; every matching group is
      projected first, so one the user is not a member of fails the call. */
  function GetOne(reading: Reading, subject: string, groups: seq<Group>, id: GroupId): (r: Result<Option<GroupView>, CalcError>)
    ensures r.Err? <==> exists i :: 0 <= i < |groups| && groups[i].id == id && !IsMember(groups[i].members, subject)
    ensures r.Ok? && r.value.Some? ==>
              && |WithId(groups, id)| == 1
              && exists i :: 0 <= i < |groups| && groups[i].id == id && View(reading, subject, groups[i]) == Ok(r.value.value)
    ensures r.Ok? && |WithId(groups, id)| != 1 ==> r.value.None?
  {
    match GetAll(reading, subject, WithId(groups, id))
    case Err(e) => Err(e)
    case Ok(vs) => if |vs| == 1 then Ok(Some(vs[0])) else Ok(None)
  }

  /** With exactly one group of that id, and the user among its members,
      `GetOne` returns that group's view. */
  lemma GetOneFindsTheGroup(reading: Reading, subject: string, groups: seq<Group>, id: GroupId, i: nat)
    requires i < |groups| && groups[i].id == id && |WithId(groups, id)| == 1
    requires IsMember(groups[i].members, subject)
    ensures GetOne(reading, subject, groups, id) == Ok(Some(View(reading, subject, groups[i]).value))
  {
    var w := WithId(groups, id);
    assert groups[i] in w;
    assert w == [groups[i]];
  }

  // ---------------------------------------------------------------------
  // Create: known and unknown phone numbers (src/services/group.ts:61-66)
  // ---------------------------------------------------------------------

  /** `a` is `b` with some entries left out, the rest in their order. */
  ghost predicate SubsequenceOf(a: seq<string>, b: seq<string>)
    decreases |b|
  {
    if a == [] then true
    else if b == [] then false
    else (a[0] == b[0] && SubsequenceOf(a[1..], b[1..])) || SubsequenceOf(a, b[1..])
  }

  /** The phone numbers of `phones` that are (`inStore`) or are not in
      `known`, in order. */
  function FilterKnown(phones: seq<string>, known: set<string>, inStore: bool): (r: seq<string>)
    ensures forall p :: p in r ==> p in phones && (p in known <==> inStore)
    ensures forall i :: 0 <= i < |phones| && (phones[i] in known <==> inStore) ==> phones[i] in r
  {
    if phones == [] then []
    else (if (phones[0] in known) == inStore then [phones[0]] else []) + FilterKnown(phones[1..], known, inStore)
  }

  lemma {:induction false} FilterKnownIsSubsequence(phones: seq<string>, known: set<string>, inStore: bool)
    ensures SubsequenceOf(FilterKnown(phones, known, inStore), phones)
  {
    if phones != [] {
      FilterKnownIsSubsequence(phones[1..], known, inStore);
      var rest := FilterKnown(phones[1..], known, inStore);
      var r := FilterKnown(phones, known, inStore);
      if (phones[0] in known) == inStore {
        assert r == [phones[0]] + rest;
        assert r[0] == phones[0] && r[1..] == rest;
      } else {
        assert r == rest;
      }
    }
  }

  /** The two lists together hold every submitted phone number exactly as
      often as it was submitted. */
  lemma {:induction false} FilterKnownSplits(phones: seq<string>, known: set<string>)
    ensures multiset(FilterKnown(phones, known, true)) + multiset(FilterKnown(phones, known, false)) == multiset(phones)
  {
    if phones != [] {
      FilterKnownSplits(phones[1..], known);
      assert phones == [phones[0]] + phones[1..];
    }
  }

  /** `members.map(member => member.phonenumber)`. */
  function Phones(members: seq<Member>): (r: seq<string>)
    ensures |r| == |members| && forall i :: 0 <= i < |members| ==> r[i] == members[i].phonenumber
  {
    if members == [] then [] else [members[0].phonenumber] + Phones(members[1..])
  }

  /** `intersectionPhonenumbers` and `differencePhonenumbers`: the submitted
      phone numbers that belong to a user, and those that do not. */
  function Partition(phones: seq<string>, known: set<string>): (r: (seq<string>, seq<string>))
    ensures forall p :: p in r.0 ==> p in phones && p in known
    ensures forall p :: p in r.1 ==> p in phones && p !in known
    ensures forall p :: p in phones ==> p in r.0 || p in r.1
    ensures multiset(r.0) + multiset(r.1) == multiset(phones)
    ensures SubsequenceOf(r.0, phones) && SubsequenceOf(r.1, phones)
  {
    FilterKnownSplits(phones, known);
    FilterKnownIsSubsequence(phones, known, true);
    FilterKnownIsSubsequence(phones, known, false);
    (FilterKnown(phones, known, true), FilterKnown(phones, known, false))
  }

  /** A user's phone number is in the known list exactly when it was
      submitted. */
  lemma KnownPhonesAreUsers(phones: seq<string>, known: set<string>)
    ensures forall p :: p in known ==> (p in Partition(phones, known).0 <==> p in phones)
  {
  }

  /** No phone number is in both lists. */
  lemma PartitionDisjoint(phones: seq<string>, known: set<string>)
    ensures var r := Partition(phones, known);
            forall p :: !(p in r.0 && p in r.1)
  {
  }

  // ---------------------------------------------------------------------
  // Record updates on a group and on a user (src/services/group.ts:81-163)
  // ---------------------------------------------------------------------

  /** `$inc` on `members.$.balance`: the first member with that phone
      number gets `delta` added to its balance, an absent balance counting
      as 0; without such a member nothing changes. */
  function IncBalance(members: seq<Member>, phone: string, delta: real): (r: seq<Member>)
    ensures |r| == |members|
    ensures forall j :: 0 <= j < |members| ==> r[j].phonenumber == members[j].phonenumber && r[j].num == members[j].num
    ensures forall j :: 0 <= j < |members| && j != IndexOf(members, phone) ==> r[j] == members[j]
    ensures IndexOf(members, phone) < |members| ==>
              r[IndexOf(members, phone)].balance == Some(members[IndexOf(members, phone)].balance.GetOr(0.0) + delta)
  {
    var k := IndexOf(members, phone);
    if k == |members| then members
    else members[k := members[k].(balance := Some(members[k].balance.GetOr(0.0) + delta))]
  }

  /** Adding and then taking away the same amount restores the members,
      whenever the balance was stored (as the schema default makes it). */
  lemma AddThenReduceRestores(members: seq<Member>, phone: string, amount: real)
    requires forall j :: 0 <= j < |members| ==> members[j].balance.Some?
    ensures IncBalance(IncBalance(members, phone, amount), phone, -amount) == members
  {
    var once := IncBalance(members, phone, amount);
    assert forall j :: 0 <= j < |members| ==> once[j].phonenumber == members[j].phonenumber;
    assert IndexOf(once, phone) == IndexOf(members, phone) by {
      SamePhonesSameIndex(members, once, phone);
    }
  }

  lemma {:induction false} SamePhonesSameIndex(a: seq<Member>, b: seq<Member>, phone: string)
    requires |a| == |b| && forall j :: 0 <= j < |a| ==> a[j].phonenumber == b[j].phonenumber
    ensures IndexOf(a, phone) == IndexOf(b, phone)
  {
    if a != [] && a[0].phonenumber != phone {
      SamePhonesSameIndex(a[1..], b[1..], phone);
    }
  }

  lemma {:induction false} SameWeightsSameTotal(a: seq<Member>, b: seq<Member>)
    requires |a| == |b| && forall j :: 0 <= j < |a| ==> a[j].num == b[j].num
    ensures TotalWeight(a) == TotalWeight(b)
  {
    if a != [] {
      SameWeightsSameTotal(a[1..], b[1..]);
    }
  }

  /** A balance change moves that member's settled balance by exactly the
      amount and leaves its credit and debt, and every other member's
      figures, as they were. */
  lemma BalanceChangeSettles(reading: Reading, items: seq<Item>, members: seq<Member>, phone: string, delta: real, subject: string)
    ensures var before := Calculate(reading, subject, items, members);
            var after := Calculate(reading, subject, items, IncBalance(members, phone, delta));
            && (before.Ok? <==> after.Ok?)
            && (before.Ok? && subject == phone ==>
                  after.value.credit == before.value.credit && after.value.debt == before.value.debt
                  && after.value.balance == before.value.balance + delta)
            && (subject != phone ==> after == before)
  {
    var changed := IncBalance(members, phone, delta);
    SamePhonesSameIndex(members, changed, subject);
    SameWeightsSameTotal(members, changed);
    if subject != phone && IndexOf(members, subject) < |members| {
      assert IndexOf(members, subject) != IndexOf(members, phone);
    }
  }

  /** `{ ...item, creator }`: a submitted item stamped with its creator. */
  datatype ItemInput = ItemInput(name: string, count: real, unit: real, status: string)

  function Stamp(inputs: seq<ItemInput>, creator: string): (r: seq<Item>)
    ensures |r| == |inputs|
    ensures forall i :: 0 <= i < |inputs| ==>
              r[i] == Item(inputs[i].name, inputs[i].count, inputs[i].unit, creator, inputs[i].status)
  {
    if inputs == [] then []
    else [Item(inputs[0].name, inputs[0].count, inputs[0].unit, creator, inputs[0].status)] + Stamp(inputs[1..], creator)
  }

  /** `$addToSet`: append unless already present. */
  function AddToSet(ids: seq<GroupId>, id: GroupId): (r: seq<GroupId>)
    ensures id in r && forall x :: x in r <==> x in ids || x == id
    ensures id in ids ==> r == ids
    ensures id !in ids ==> r == ids + [id]
  {
    if id in ids then ids else ids + [id]
  }

  /** Adding the same id twice is adding it once. */
  lemma AddToSetIdempotent(ids: seq<GroupId>, id: GroupId)
    ensures AddToSet(AddToSet(ids, id), id) == AddToSet(ids, id)
  {
  }

  /** Whether some member has phone number `phone` (`'members.phonenumber'`
      in a query). */
  predicate HasMember(g: Group, phone: string)
  {
    IndexOf(g.members, phone) < |g.members|
  }

  /** What a group query selects on besides the member: `_id` or `key`. */
  datatype Selector = IdIs(id: GroupId) | KeyIs(key: string)

  /** Whether `g` matches `{ <selector>, 'members.phonenumber': phone }`. */
  predicate Matches(g: Group, sel: Selector, phone: string)
  {
    && (match sel
        case IdIs(id) => g.id == id
        case KeyIs(key) => g.key == key)
    && HasMember(g, phone)
  }

  /** The first group the query matches, in collection order, or
      `|groups|` when none does (`updateOne` and `findOne`). */
  function FindFirst(groups: seq<Group>, sel: Selector, phone: string): (i: nat)
    ensures i <= |groups|
    ensures i < |groups| ==> Matches(groups[i], sel, phone)
    ensures forall j :: 0 <= j < i ==> !Matches(groups[j], sel, phone)
  {
    if groups == [] then 0
    else if Matches(groups[0], sel, phone) then 0
    else 1 + FindFirst(groups[1..], sel, phone)
  }

  /** Why a call throws. */
  datatype ServiceError =
    | MissingImage          // `files[0].filename` of an empty upload list
    | RequiredFieldMissing  // the schema's `required` on `name` or `creator`
    | CannotJoin            // no group with that key lists the member

  function Message(e: ServiceError): string
  {
    match e
    case MissingImage => "Cannot read property 'filename' of undefined"
    case RequiredFieldMissing => "Group validation failed"
    case CannotJoin => "you cannot join this group"
  }

  class GroupService {
    /** The group collection, in natural (insertion) order. */
    var groups: seq<Group>
    /** The `groups` array of every user document, by phone number. */
    var userGroups: map<string, seq<GroupId>>
    /** The `_id` the next created group gets. */
    var nextId: GroupId
    /** The schema's default join key, fixed when the process started. */
    const defaultKey: string

    /** Ids are unique and below `nextId`, and every stored member has a
        balance (the schema default). */
    ghost predicate Valid()
      reads this
    {
      && (forall i :: 0 <= i < |groups| ==> groups[i].id < nextId)
      && (forall i, j :: 0 <= i < j < |groups| ==> groups[i].id != groups[j].id)
      && (forall i, j :: 0 <= i < |groups| && 0 <= j < |groups[i].members| ==> groups[i].members[j].balance.Some?)
    }

    constructor (startMillis: nat, users: map<string, seq<GroupId>>)
      ensures Valid()
      ensures groups == [] && userGroups == users && nextId == 0
      ensures defaultKey == DefaultKey(startMillis)
    {
      groups := [];
      userGroups := users;
      nextId := 0;
      defaultKey := DefaultKey(startMillis);
    }

    /** `Create`: store a new group with the schema defaults and the
        process-wide default key, add its id to every submitted member who
        is a user, and return the known and unknown phone numbers. */
    method Create(name: string, members: seq<Member>, files: seq<string>, creator: string)
      returns (r: Result<(seq<string>, seq<string>), ServiceError>)
      requires Valid()
      modifies this
      ensures Valid()
      ensures files == [] ==> r == Err(MissingImage)
      ensures files != [] && (name == "" || creator == "") ==> r == Err(RequiredFieldMissing)
      ensures r.Ok? <==> files != [] && name != "" && creator != ""
      ensures r.Err? ==> groups == old(groups) && userGroups == old(userGroups) && nextId == old(nextId)
      ensures r.Ok? ==>
                && files != [] && name != "" && creator != ""
                && groups == old(groups) + [NewGroup(old(nextId), name, files[0], defaultKey, creator, members)]
                && nextId == old(nextId) + 1
                && r.value == Partition(Phones(members), old(userGroups).Keys)
                && userGroups.Keys == old(userGroups).Keys
                && forall p :: p in userGroups ==>
                     userGroups[p] == if p in Phones(members) then AddToSet(old(userGroups)[p], old(nextId)) else old(userGroups)[p]
    {
      if files == [] {
        return Err(MissingImage);
      }
      var g := NewGroup(nextId, name, files[0], defaultKey, creator, members);
      if !PassesRequired(g) {
        return Err(RequiredFieldMissing);
      }
      var parts := Partition(Phones(members), userGroups.Keys);
      KnownPhonesAreUsers(Phones(members), userGroups.Keys);
      Store(g);
      AddToUsers(parts.0, g.id);
      r := Ok(parts);
    }

    /** `groupModel.create`: append a group carrying the next id. */
    method Store(g: Group)
      requires Valid() && g.id == nextId
      requires forall j :: 0 <= j < |g.members| ==> g.members[j].balance.Some?
      modifies this
      ensures Valid()
      ensures groups == old(groups) + [g] && nextId == old(nextId) + 1 && userGroups == old(userGroups)
    {
      groups := groups + [g];
      nextId := nextId + 1;
    }

    /** `updateMany({ phonenumber: { $in: phones } }, { $addToSet: { groups:
        id } })`: add `id` to the groups of every user listed. */
    method AddToUsers(phones: seq<string>, id: GroupId)
      requires Valid()
      modifies this
      ensures Valid()
      ensures groups == old(groups) && nextId == old(nextId)
      ensures userGroups.Keys == old(userGroups).Keys
      ensures forall p :: p in userGroups ==>
                userGroups[p] == if p in phones then AddToSet(old(userGroups)[p], id) else old(userGroups)[p]
    {
      ghost var before := userGroups;
      for n := 0 to |phones|
        invariant groups == old(groups) && nextId == old(nextId)
        invariant userGroups.Keys == before.Keys
        invariant forall p :: p in userGroups ==>
                    userGroups[p] == if p in phones[..n] then AddToSet(before[p], id) else before[p]
      {
        var p := phones[n];
        assert phones[..n + 1] == phones[..n] + [p];
        if p in userGroups {
          userGroups := userGroups[p := AddToSet(userGroups[p], id)];
        }
      }
      assert phones[..|phones|] == phones;
    }

    /** `AddItem`: append the stamped inputs to the group with that id, if
        the creator is one of its members; otherwise nothing changes. */
    method AddItem(groupId: GroupId, inputs: seq<ItemInput>, creator: string)
      requires Valid()
      modifies this
      ensures Valid()
      ensures userGroups == old(userGroups) && nextId == old(nextId)
      ensures var i := FindFirst(old(groups), IdIs(groupId), creator);
              groups == if i < |old(groups)| then old(groups)[i := old(groups)[i].(items := old(groups)[i].items + Stamp(inputs, creator))]
                        else old(groups)
    {
      var i := FindFirst(groups, IdIs(groupId), creator);
      if i < |groups| {
        groups := groups[i := groups[i].(items := groups[i].items + Stamp(inputs, creator))];
      }
    }

    /** `AddBalance`: add `amount` to the member's balance in that group. */
    method AddBalance(groupId: GroupId, phone: string, amount: real)
      requires Valid()
      modifies this
      ensures Valid()
      ensures userGroups == old(userGroups) && nextId == old(nextId)
      ensures var i := FindFirst(old(groups), IdIs(groupId), phone);
              groups == if i < |old(groups)| then old(groups)[i := old(groups)[i].(members := IncBalance(old(groups)[i].members, phone, amount))]
                        else old(groups)
    {
      var i := FindFirst(groups, IdIs(groupId), phone);
      if i < |groups| {
        groups := groups[i := groups[i].(members := IncBalance(groups[i].members, phone, amount))];
      }
    }

    /** `ReduceBalance`: take `amount` from the member's balance in that
        group. */
    method ReduceBalance(groupId: GroupId, phone: string, amount: real)
      requires Valid()
      modifies this
      ensures Valid()
      ensures userGroups == old(userGroups) && nextId == old(nextId)
      ensures var i := FindFirst(old(groups), IdIs(groupId), phone);
              groups == if i < |old(groups)| then old(groups)[i := old(groups)[i].(members := IncBalance(old(groups)[i].members, phone, -amount))]
                        else old(groups)
    {
      var i := FindFirst(groups, IdIs(groupId), phone);
      if i < |groups| {
        groups := groups[i := groups[i].(members := IncBalance(groups[i].members, phone, -amount))];
      }
    }

    /** `JoinGroup`: find the first group with that key listing the member;
        fail if there is none, otherwise add its id to the user's groups
        (when a user with that phone number exists). */
    method JoinGroup(key: string, phone: string) returns (r: Outcome<ServiceError>)
      requires Valid()
      modifies this
      ensures Valid()
      ensures groups == old(groups) && nextId == old(nextId)
      ensures var i := FindFirst(groups, KeyIs(key), phone);
              && (r.Fail? <==> i == |groups|)
              && (r.Fail? ==> r.error == CannotJoin && Message(r.error) == "you cannot join this group" && userGroups == old(userGroups))
              && (r.Pass? ==> userGroups == if phone in old(userGroups) then old(userGroups)[phone := AddToSet(old(userGroups)[phone], groups[i].id)]
                                            else old(userGroups))
    {
      var i := FindFirst(groups, KeyIs(key), phone);
      if i == |groups| {
        return Fail(CannotJoin);
      }
      if phone in userGroups {
        userGroups := userGroups[phone := AddToSet(userGroups[phone], groups[i].id)];
      }
      r := Pass;
    }
  }

  /** Adding and then reducing the same amount leaves the store as it was. */
  method AddThenReduce(s: GroupService, groupId: GroupId, phone: string, amount: real)
    requires s.Valid()
    modifies s
    ensures s.Valid()
    ensures s.groups == old(s.groups) && s.userGroups == old(s.userGroups) && s.nextId == old(s.nextId)
  {
    ghost var start := s.groups;
    s.AddBalance(groupId, phone, amount);
    var i := FindFirst(start, IdIs(groupId), phone);
    if i < |start| {
      AddThenReduceRestores(start[i].members, phone, amount);
      assert FindFirst(s.groups, IdIs(groupId), phone) == i by {
        SameMatchesSameGroup(start, s.groups, groupId, phone);
      }
    }
    s.ReduceBalance(groupId, phone, amount);
  }

  lemma {:induction false} SameMatchesSameGroup(a: seq<Group>, b: seq<Group>, id: GroupId, phone: string)
    requires |a| == |b|
    requires forall j :: 0 <= j < |a| ==> a[j].id == b[j].id && HasMember(a[j], phone) == HasMember(b[j], phone)
    ensures FindFirst(a, IdIs(id), phone) == FindFirst(b, IdIs(id), phone)
  {
    if a != [] {
      SameMatchesSameGroup(a[1..], b[1..], id, phone);
    }
  }

  /** Every group created in one process gets the same default key, so a
      member listed in several groups joins only the first of them, in
      collection order, whichever group the key was shared for. */
  lemma SharedKeyJoinsFirstGroup(groups: seq<Group>, key: string, phone: string, i: nat, j: nat)
    requires i < j < |groups|
    requires groups[i].key == key && groups[j].key == key
    requires HasMember(groups[i], phone) && HasMember(groups[j], phone)
    ensures FindFirst(groups, KeyIs(key), phone) <= i < j
  {
  }

  /** A freshly created group settles every member at credit 0, debt 0 and
      balance equal to the stored manual balance. */
  lemma NewGroupSettlesAtBalance(reading: Reading, id: GroupId, name: string, image: string, key: string, creator: string, members: seq<Member>, subject: string)
    requires IsMember(members, subject)
    ensures var g := NewGroup(id, name, image, key, creator, members);
            Calculate(reading, subject, g.items, g.members)
              == Ok(Settlement(0.0, 0.0, members[IndexOf(members, subject)].balance.GetOr(0.0)))
  {
    var g := NewGroup(id, name, image, key, creator, members);
    SamePhonesSameIndex(members, g.members, subject);
  }
}
