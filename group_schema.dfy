/** The group document of the ledger: its record shape, its schema
    defaults, and the `insert` helper that builds the default join key
    (src/models/group.ts). */
module GroupSchema {
  import opened Wrappers

  // ---------------------------------------------------------------------
  // JavaScript's String.prototype.substr, and `insert` built on it
  // ---------------------------------------------------------------------

  function Min(a: int, b: int): int { if a <= b then a else b }
  function Max(a: int, b: int): int { if a <= b then b else a }

  /** Where `substr` starts: a negative start counts from the end and is
      clamped at 0; a start past the end is clamped to the length. */
  function SubstrStart(s: string, start: int): (from: nat)
    ensures from <= |s|
    ensures 0 <= start <= |s| ==> from == start
    ensures start >= |s| ==> from == |s|
  {
    if start < 0 then Max(|s| + start, 0) else Min(start, |s|)
  }

  /** `s.substr(start, length)`: at most `length` characters from the
      clamped start; a negative length gives the empty string. */
  function Substr(s: string, start: int, length: int): (r: string)
    ensures |r| <= |s|
    ensures length <= 0 ==> r == []
    ensures 0 <= start <= |s| && 0 <= length && start + length <= |s| ==> r == s[start..start + length]
  {
    var from := SubstrStart(s, start);
    var count := Min(Max(length, 0), |s| - from);
    s[from..from + count]
  }

  /** `s.substr(start)`: everything from the clamped start. */
  function SubstrFrom(s: string, start: int): (r: string)
    ensures 0 <= start <= |s| ==> r == s[start..]
    ensures start >= |s| ==> r == []
  {
    s[SubstrStart(s, start)..]
  }

  /** `insert(str, index, value)`: splice `value` into `str` at `index`
      (src/models/group.ts:4). */
  function Insert(str: string, index: int, value: string): (r: string)
    ensures |value| <= |r| <= |str| + |value|
    ensures index >= 0 ==> |r| == |str| + |value|
  {
    Substr(str, 0, index) + value + SubstrFrom(str, index)
  }

  /** Taking `count` characters out at `index`: the inverse of a splice. */
  function RemoveAt(s: string, index: nat, count: nat): string
    requires index + count <= |s|
  {
    s[..index] + s[index + count..]
  }

  /** Within bounds, `insert` is the plain splice and grows the string by
      exactly the inserted text. */
  lemma InsertSplices(str: string, index: int, value: string)
    requires 0 <= index <= |str|
    ensures Insert(str, index, value) == str[..index] + value + str[index..]
    ensures |Insert(str, index, value)| == |str| + |value|
  {
    assert Substr(str, 0, index) == str[..index];
  }

  /** Taking the inserted text back out at the same index restores the
      original string. */
  lemma InsertThenRemove(str: string, index: int, value: string)
    requires 0 <= index <= |str|
    ensures index + |value| <= |Insert(str, index, value)|
    ensures RemoveAt(Insert(str, index, value), index, |value|) == str
  {
    InsertSplices(str, index, value);
    var s := Insert(str, index, value);
    assert s[..index] == str[..index];
    assert s[index + |value|..] == str[index..];
    assert str[..index] + str[index..] == str;
  }

  /** Index 0 prepends. */
  lemma InsertAtStart(str: string, value: string)
    ensures Insert(str, 0, value) == value + str
  {
    InsertSplices(str, 0, value);
    assert str[..0] == [] && str[0..] == str;
  }

  /** Because `substr` clamps, any index at or past the end appends. */
  lemma InsertPastEnd(str: string, index: int, value: string)
    requires index >= |str|
    ensures Insert(str, index, value) == str + value
  {
    assert Substr(str, 0, index) == str[0..|str|] == str;
  }

  /** A negative index keeps only the last `-index` characters after the
      inserted text (`substr(0, index)` is empty and `substr(index)` counts
      from the end). */
  lemma InsertNegativeIndex(str: string, index: int, value: string)
    requires index < 0
    ensures Insert(str, index, value) == value + str[Max(|str| + index, 0)..]
  {
  }

  // ---------------------------------------------------------------------
  // The default join key: `insert((+new Date()).toString(36), 4, '-')`
  // ---------------------------------------------------------------------

  /** The base-36 digit for `d`, lower case as Number.prototype.toString
      writes it. */
  function Digit36(d: nat): (c: char)
    requires d < 36
  {
    if d < 10 then ('0' as int + d) as char else ('a' as int + d - 10) as char
  }

  /** The value of a base-36 digit character (0 for any other character). */
  function DigitValue(c: char): nat
  {
    if '0' <= c <= '9' then c as int - '0' as int
    else if 'a' <= c <= 'z' then c as int - 'a' as int + 10
    else 0
  }

  /** `n.toString(36)` for a non-negative integer such as a millisecond
      timestamp: most significant digit first, no leading zeros. */
  function ToBase36(n: nat): (r: string)
    ensures |r| >= 1
    decreases n
  {
    if n < 36 then [Digit36(n)] else ToBase36(n / 36) + [Digit36(n % 36)]
  }

  /** Reading a base-36 string back, most significant digit first. */
  function FromBase36(s: string): nat
  {
    if s == [] then 0 else FromBase36(s[..|s| - 1]) * 36 + DigitValue(s[|s| - 1])
  }

  /** `toString(36)` loses nothing: reading the digits back gives the
      timestamp. */
  lemma {:induction false} Base36RoundTrip(n: nat)
    ensures FromBase36(ToBase36(n)) == n
    decreases n
  {
    if n >= 36 {
      Base36RoundTrip(n / 36);
      var s := ToBase36(n);
      assert s[..|s| - 1] == ToBase36(n / 36);
    }
  }

  /** Every timestamp from 36^3 milliseconds on has at least four base-36
      digits. */
  lemma {:induction false} Base36HasFourDigits(n: nat)
    requires n >= 36 * 36 * 36
    ensures |ToBase36(n)| >= 4
    decreases n
  {
    if n / 36 >= 36 * 36 * 36 {
      Base36HasFourDigits(n / 36);
    } else {
      assert n / 36 >= 36 * 36;
      assert n / 36 / 36 >= 36;
      assert |ToBase36(n / 36 / 36)| >= 1;
    }
  }

  /** The schema's default `key` for a process started at `startMillis`
      (src/models/group.ts:18-21). The default is an expression evaluated
      once, when the schema is defined, so every group a process creates
      gets this same key. */
  function DefaultKey(startMillis: nat): (k: string)
    ensures |k| == |ToBase36(startMillis)| + 1
  {
    Insert(ToBase36(startMillis), 4, "-")
  }

  /** From 36^3 milliseconds on, the default key is the base-36 timestamp
      with a '-' after its fourth digit. */
  lemma DefaultKeyShape(startMillis: nat)
    requires startMillis >= 36 * 36 * 36
    ensures |ToBase36(startMillis)| >= 4
    ensures |DefaultKey(startMillis)| == |ToBase36(startMillis)| + 1
    ensures DefaultKey(startMillis)[4] == '-'
    ensures DefaultKey(startMillis)[..4] == ToBase36(startMillis)[..4]
    ensures DefaultKey(startMillis)[5..] == ToBase36(startMillis)[4..]
  {
    Base36HasFourDigits(startMillis);
    InsertSplices(ToBase36(startMillis), 4, "-");
  }

  // ---------------------------------------------------------------------
  // Records and schema defaults (src/models/group.ts:6-57)
  // ---------------------------------------------------------------------

  /** A member's weight (`num`, family size); the model keeps it a
      positive integer. */
  type Weight = n: int | n >= 1 witness 1

  type GroupId = nat

  const NumberOfHeads: string := "number-of-heads"
  const NumberOfMembers: string := "number-of-members"

  /** The two values the schema's `enum` lists for an item's `status`. */
  predicate IsSchemaStatus(status: string)
  {
    status == NumberOfHeads || status == NumberOfMembers
  }

  /** `balance` is optional: documents written without it have no value,
      and the ledger reads an absent balance as 0. */
  datatype Member = Member(phonenumber: string, num: Weight, balance: Option<real>)

  /** An expense: `count` units at `unit` each, paid by `creator`, split by
      head count or by weight according to `status`. */
  datatype Item = Item(name: string, count: real, unit: real, creator: string, status: string)

  /** A stored group; `version` is Mongoose's `__v`. */
  datatype Group = Group(
    id: GroupId,
    name: string,
    image: string,
    key: string,
    wallet: real,
    disabled: bool,
    creator: string,
    members: seq<Member>,
    items: seq<Item>,
    version: nat)

  /** A submitted member as the schema stores it: `balance` defaults to 0. */
  function StoredMember(m: Member): (r: Member)
    ensures r.phonenumber == m.phonenumber && r.num == m.num
    ensures r.balance.Some? && r.balance.value == m.balance.GetOr(0.0)
  {
    m.(balance := Some(m.balance.GetOr(0.0)))
  }

  /** A freshly created group document with the schema's defaults. */
  function NewGroup(id: GroupId, name: string, image: string, key: string, creator: string, members: seq<Member>): (g: Group)
    ensures g.id == id && g.key == key && g.creator == creator
    ensures g.name == name && g.image == image
    ensures g.wallet == 0.0 && !g.disabled && g.items == [] && g.version == 0
    ensures |g.members| == |members|
    ensures forall i :: 0 <= i < |members| ==> g.members[i] == StoredMember(members[i])
  {
    Group(id, name, image, key, 0.0, false, creator, seq(|members|, i requires 0 <= i < |members| => StoredMember(members[i])), [], 0)
  }

  /** The schema's `required` fields: Mongoose rejects a missing or empty
      string for `name` and for `creator`. */
  predicate PassesRequired(g: Group)
  {
    g.name != "" && g.creator != ""
  }
}
