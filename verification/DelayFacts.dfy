/** How a timer is kept as a fact: building the field list and reading the arguments back. */
module DelayFacts {
  import opened Wrappers
  import opened DelayTimers
  import opened Decimals

  /** Field names; those of the arguments are printed from a counter. */
  datatype Field = Id | State | Delay | Expire | CallbackName | Address | SrcId | ArgCount | Argument(name: string)

  /** Typed field values; the state is one of four strings. */
  datatype Value =
    | Word(text: Option<string>)
    | Mark(status: Status)
    | Integer(n: int)
    | Unsigned(u: nat)
    | Pointer(cb: Callback)

  datatype Item = Item(field: Field, value: Value) | End

  type Fields = map<Field, Value>

  const FIXED_FIELDS: nat := 8
  const FLDLIST_DIM: nat := 74
  const NAME_BUFFER: nat := 2048

  function ArgName(i: nat): string {
    "argv" + Digits(i)
  }

  /** Arguments have names of their own. */
  lemma {:induction false} ArgNamesAreInjective(a: nat, b: nat)
    requires ArgName(a) == ArgName(b)
    ensures a == b
  {
    assert Digits(a) == ArgName(a)[4..] == ArgName(b)[4..] == Digits(b);
    DigitsAreInjective(a, b);
  }

  lemma {:induction false} ArgNamesAreShort(i: nat)
    requires i < MAX_ARG
    ensures |ArgName(i)| <= 6
  {
    if i >= 10 {
      assert |Digits(i / 10)| == 1;
    }
  }

  function StoredArg(t: char, a: Arg): Value
    requires Fits(t, a)
  {
    if t == 'i' then Integer(a.n)
    else if t == 's' then Word(a.text)
    else Word(Some(UNSUPPORTED))
  }

  // --- reading fields: a missing or mistyped field reads as null or zero

  function GetString(fields: Fields, field: Field): Option<string> {
    if field in fields && fields[field].Word? then fields[field].text else None
  }

  function GetInteger(fields: Fields, field: Field): int {
    if field in fields && fields[field].Integer? then fields[field].n else 0
  }

  function GetUnsigned(fields: Fields, field: Field): nat {
    if field in fields && fields[field].Unsigned? then fields[field].u else 0
  }

  /** First as a string, next as an integer. */
  function ReadArg(fields: Fields, i: nat): (char, Arg) {
    var text := GetString(fields, Argument(ArgName(i)));
    if text != None then ('s', Text(text)) else ('i', Number(GetInteger(fields, Argument(ArgName(i)))))
  }

  /** The fields that an item list sets, the last setting of a field counting. */
  function FieldsOf(items: seq<Item>): Fields {
    if items == [] then map[]
    else
      var rest, last := FieldsOf(items[..|items| - 1]), items[|items| - 1];
      if last.End? then rest else rest[last.field := last.value]
  }

  function Heading(id: string, status: Status, delay: nat, expire: string, srcid: nat, name: string, call: Call): seq<Item> {
    [Item(Id, Word(Some(id))), Item(State, Mark(status)), Item(Delay, Unsigned(delay)), Item(Expire, Word(Some(expire))),
     Item(CallbackName, Word(Some(name))), Item(Address, Pointer(call.cb)), Item(SrcId, Unsigned(srcid)),
     Item(ArgCount, Unsigned(|call.argt|))]
  }

  function Arguments(call: Call, n: nat): seq<Item>
    requires WellTyped(call) && n <= |call.argt|
  {
    seq(n, i requires 0 <= i < n => Item(Argument(ArgName(i)), StoredArg(call.argt[i], call.argv[i])))
  }

  /** What the fields say of a timer. */
  ghost predicate Describes(fields: Fields, id: string, t: Timer) {
    var told :=
      && GetString(fields, Id) == Some(id)
      && State in fields && fields[State] == Mark(t.status)
      && GetUnsigned(fields, Delay) == t.delay && GetUnsigned(fields, SrcId) == t.srcid
      && Address in fields && fields[Address] == Pointer(t.call.cb)
      && GetUnsigned(fields, ArgCount) == |t.call.argt| == |t.call.argv| <= MAX_ARG
      && forall i :: 0 <= i < |t.call.argt| ==> ReadArg(fields, i) == (t.call.argt[i], t.call.argv[i]);
    told
  }

  lemma {:induction false} StatusIsSet(fields: Fields, id: string, t: Timer, status: Status)
    requires Describes(fields, id, t)
    ensures Describes(fields[State := Mark(status)], id, t.(status := status))
  {
    var changed := fields[State := Mark(status)];
    forall i | 0 <= i < |t.call.argt|
      ensures ReadArg(changed, i) == ReadArg(fields, i)
    {
    }
  }

  /** A field not set again keeps its value. */
  lemma {:induction false} FieldIsSet(items: seq<Item>, i: nat)
    requires i < |items| && items[i].Item?
    requires forall j :: i < j < |items| ==> items[j].Item? && items[j].field != items[i].field
    ensures items[i].field in FieldsOf(items) && FieldsOf(items)[items[i].field] == items[i].value
  {
    if i < |items| - 1 {
      FieldIsSet(items[..|items| - 1], i);
    }
  }

  /** Different fields, none of them an argument. */
  ghost predicate Distinct(heading: seq<Item>) {
    && (forall k :: 0 <= k < |heading| ==> heading[k].Item? && !heading[k].field.Argument?)
    && forall k, l :: 0 <= k < l < |heading| ==> heading[k].field != heading[l].field
  }

  /** No two items set the same field. */
  lemma {:induction false} FieldsAreDistinct(heading: seq<Item>, call: Call, i: nat, j: nat)
    requires WellTyped(call) && i < j < |heading| + |call.argt|
    requires Distinct(heading)
    ensures var items := heading + Arguments(call, |call.argt|);
            items[i].Item? && items[j].Item? && items[i].field != items[j].field
  {
    var n := |heading|;
    if i >= n && ArgName(i - n) == ArgName(j - n) {
      ArgNamesAreInjective(i - n, j - n);
    }
  }

  lemma {:induction false} ItemIsSet(heading: seq<Item>, call: Call, i: nat)
    requires WellTyped(call) && i < |heading| + |call.argt|
    requires Distinct(heading)
    ensures var items := heading + Arguments(call, |call.argt|);
            items[i].Item? && items[i].field in FieldsOf(items) && FieldsOf(items)[items[i].field] == items[i].value
  {
    var items := heading + Arguments(call, |call.argt|);
    forall j | i < j < |items|
      ensures items[j].Item? && items[j].field != items[i].field
    {
      FieldsAreDistinct(heading, call, i, j);
    }
    FieldIsSet(items, i);
  }

  lemma {:induction false} HeadingIsDistinct(id: string, status: Status, delay: nat, expire: string, srcid: nat, name: string, call: Call)
    ensures var h := Heading(id, status, delay, expire, srcid, name, call);
            Distinct(h)
  {
  }

  /** A fact built for a call describes the timer with that call's delivery. */
  lemma {:induction false} FactDescribesTimer(id: string, status: Status, delay: nat, expire: string, srcid: nat, name: string, call: Call)
    requires WellTyped(call) && |call.argt| <= MAX_ARG
    ensures Describes(FieldsOf(Heading(id, status, delay, expire, srcid, name, call) + Arguments(call, |call.argt|)),
                      id, Timer(status, delay, srcid, Delivery(call)))
    ensures var fields := FieldsOf(Heading(id, status, delay, expire, srcid, name, call) + Arguments(call, |call.argt|));
            GetString(fields, CallbackName) == Some(name) && GetString(fields, Expire) == Some(expire)
  {
    var h := Heading(id, status, delay, expire, srcid, name, call);
    HeadingIsDistinct(id, status, delay, expire, srcid, name, call);
    var fields := FieldsOf(h + Arguments(call, |call.argt|));
    ItemIsSet(h, call, 0);
    ItemIsSet(h, call, 1);
    ItemIsSet(h, call, 2);
    ItemIsSet(h, call, 3);
    ItemIsSet(h, call, 4);
    ItemIsSet(h, call, 5);
    ItemIsSet(h, call, 6);
    ItemIsSet(h, call, 7);
    forall i | 0 <= i < |call.argt|
      ensures ReadArg(fields, i) == Delivered(call.argt[i], call.argv[i])
    {
      ArgumentReadsBack(h, call, i);
    }
  }

  lemma {:induction false} StoredReadsBack(fields: Fields, t: char, a: Arg, i: nat)
    requires Fits(t, a) && Argument(ArgName(i)) in fields && fields[Argument(ArgName(i))] == StoredArg(t, a)
    ensures ReadArg(fields, i) == Delivered(t, a)
  {
  }

  lemma {:induction false} ArgumentReadsBack(heading: seq<Item>, call: Call, i: nat)
    requires WellTyped(call) && i < |call.argt|
    requires Distinct(heading)
    ensures ReadArg(FieldsOf(heading + Arguments(call, |call.argt|)), i) == Delivered(call.argt[i], call.argv[i])
  {
    var items := heading + Arguments(call, |call.argt|);
    ItemIsSet(heading, call, |heading| + i);
    assert items[|heading| + i] == Item(Argument(ArgName(i)), StoredArg(call.argt[i], call.argv[i]));
    StoredReadsBack(FieldsOf(items), call.argt[i], call.argv[i], i);
  }
}
