/**
 JSON values without arrays and the reconciler's `deepEqual` on them (ops/cf/apply.ts), proved to decide
 equality of meaning exactly from values that hide nothing.
 */
module JsonTrees {
  /** A JSON value without arrays, plus the `undefined` a spread can leave behind and the functions every
      object inherits. Members keep their order. */
  datatype Json =
    | Undefined
    | Builtin
    | Null
    | Bool(b: bool)
    | Num(n: int)
    | Str(s: string)
    | Obj(members: seq<Member>)

  datatype Member = Member(key: string, value: Json)

  predicate Distinct(members: seq<Member>) {
    forall i, j :: 0 <= i < j < |members| ==> members[i].key != members[j].key
  }

  /** Objects with one value a key, at every depth, and no functions. */
  predicate Proper(a: Json) {
    && !a.Builtin?
    && (a.Obj? ==> Distinct(a.members) && forall i :: 0 <= i < |a.members| ==> Proper(a.members[i].value))
  }

  /** No `undefined` at any depth: what parsing JSON yields. */
  predicate Defined(a: Json) {
    !a.Undefined? && (a.Obj? ==> forall i :: 0 <= i < |a.members| ==> Defined(a.members[i].value))
  }

  /** An object's own value; `undefined` where it has none. */
  function Get(members: seq<Member>, key: string): Json {
    if members == [] then Undefined
    else if members[0].key == key then members[0].value
    else Get(members[1..], key)
  }

  predicate HasKey(members: seq<Member>, key: string) {
    exists i :: 0 <= i < |members| && members[i].key == key
  }

  /** What an object reads under a key it does not own: its prototype, which has no keys of its own to
      list, the prototype's functions, or `undefined`. */
  function Inherited(key: string): Json {
    if key == "__proto__" then Obj([]) else if InheritedFunction(key) then Builtin else Undefined
  }

  predicate InheritedFunction(key: string) {
    || key == "constructor" || key == "toString" || key == "toLocaleString" || key == "valueOf"
    || key == "hasOwnProperty" || key == "isPrototypeOf" || key == "propertyIsEnumerable"
    || key == "__defineGetter__" || key == "__defineSetter__"
    || key == "__lookupGetter__" || key == "__lookupSetter__"
  }

  function Read(members: seq<Member>, key: string): Json {
    if HasKey(members, key) then Get(members, key) else Inherited(key)
  }

  // ---------------------------------------------------------------- deepEqual

  /** `deepEqual`. Two objects that are one object are equal by their contents too (`DeepEqualSame`). */
  predicate DeepEqual(a: Json, b: Json) {
    if !a.Obj? || !b.Obj? then a == b
    else
      && |a.members| == |b.members|
      && forall i :: 0 <= i < |a.members| ==> DeepEqual(a.members[i].value, Read(b.members, a.members[i].key))
  }

  /** A value as a tree of key/value maps: the meaning of JSON, without the order of its members. */
  datatype Tree = Leaf(json: Json) | Node(children: map<string, Tree>)

  function Meaning(a: Json): Tree {
    if a.Obj? then Node(MeaningOf(a.members)) else Leaf(a)
  }

  function MeaningOf(members: seq<Member>): (m: map<string, Tree>)
    ensures forall i :: 0 <= i < |members| ==> members[i].key in m
  {
    if members == [] then map[]
    else MeaningOf(members[1..])[members[0].key := Meaning(members[0].value)]
  }

  lemma {:induction false} GetMember(members: seq<Member>, i: nat)
    requires i < |members| && Distinct(members)
    ensures Get(members, members[i].key) == members[i].value
  {
    if i > 0 {
      assert members[0].key != members[i].key;
      assert Distinct(members[1..]);
      assert members[1..][i - 1] == members[i];
      GetMember(members[1..], i - 1);
    }
  }

  lemma {:induction false} GetMissing(members: seq<Member>, key: string)
    ensures !HasKey(members, key) ==> Get(members, key) == Undefined
    ensures Get(members, key) != Undefined ==>
              exists i :: 0 <= i < |members| && members[i] == Member(key, Get(members, key))
  {
    if members != [] {
      GetMissing(members[1..], key);
      if members[0].key == key {
        assert members[0] == Member(key, Get(members, key));
      } else {
        if HasKey(members[1..], key) {
          var i :| 0 <= i < |members[1..]| && members[1..][i].key == key;
          assert members[i + 1].key == key;
        }
        if Get(members, key) != Undefined {
          var i :| 0 <= i < |members[1..]| && members[1..][i] == Member(key, Get(members[1..], key));
          assert members[i + 1] == members[1..][i];
        }
      }
    }
  }

  /** The meaning of an object holds exactly its keys, each with the meaning of its value. */
  lemma {:induction false} MeaningKeys(members: seq<Member>, key: string)
    requires Distinct(members)
    ensures key in MeaningOf(members) <==> HasKey(members, key)
    ensures HasKey(members, key) ==> MeaningOf(members)[key] == Meaning(Get(members, key))
  {
    if members != [] {
      assert Distinct(members[1..]);
      MeaningKeys(members[1..], key);
      if HasKey(members[1..], key) {
        var i :| 0 <= i < |members[1..]| && members[1..][i].key == key;
        assert members[i + 1].key == key;
      }
      if members[0].key == key {
        assert HasKey(members, key);
      } else if HasKey(members, key) {
        var i :| 0 <= i < |members| && members[i].key == key;
        assert members[1..][i - 1].key == key;
      }
    }
  }

  function KeySet(members: seq<Member>): set<string> {
    set i | 0 <= i < |members| :: members[i].key
  }

  lemma KeySetCons(members: seq<Member>)
    requires members != []
    ensures KeySet(members) == {members[0].key} + KeySet(members[1..])
  {
    forall key | key in KeySet(members) ensures key in {members[0].key} + KeySet(members[1..]) {
      var i :| 0 <= i < |members| && members[i].key == key;
      assert i > 0 ==> members[1..][i - 1].key == key;
    }
    forall key | key in KeySet(members[1..]) ensures key in KeySet(members) {
      var i :| 0 <= i < |members[1..]| && members[1..][i].key == key;
      assert members[i + 1].key == key;
    }
  }

  lemma {:induction false} KeySetSize(members: seq<Member>)
    requires Distinct(members)
    ensures |KeySet(members)| == |members|
  {
    if members != [] {
      assert Distinct(members[1..]);
      KeySetSize(members[1..]);
      KeySetCons(members);
      assert members[0].key !in KeySet(members[1..]);
    }
  }

  /** As many distinct keys, all of the left among the right: the key sets are one. */
  lemma KeysCoincide(a: seq<Member>, b: seq<Member>, key: string)
    requires Distinct(a) && Distinct(b) && |a| == |b|
    requires forall i :: 0 <= i < |a| ==> HasKey(b, a[i].key)
    ensures HasKey(a, key) <==> HasKey(b, key)
  {
    KeySetSize(a);
    KeySetSize(b);
    assert KeySet(a) <= KeySet(b) by {
      forall k | k in KeySet(a) ensures k in KeySet(b) {
        var i :| 0 <= i < |a| && a[i].key == k;
        var j :| 0 <= j < |b| && b[j].key == k;
      }
    }
    SubsetSameSize(KeySet(a), KeySet(b));
    if HasKey(a, key) {
      var i :| 0 <= i < |a| && a[i].key == key;
    }
    if HasKey(b, key) {
      var j :| 0 <= j < |b| && b[j].key == key;
      assert key in KeySet(b);
    }
  }

  lemma SubsetSameSize(a: set<string>, b: set<string>)
    requires a <= b && |a| == |b|
    ensures a == b
  {
    assert b == a + (b - a);
    assert |b| == |a| + |b - a|;
  }

  /** A member whose value is what an object without it reads there. */
  predicate Hides(member: Member) {
    member.value == Inherited(member.key)
  }

  /** No object inside holds such a member: no `undefined`, and no `__proto__` that is an empty object. */
  predicate TellsAll(a: Json) {
    a.Obj? ==> forall i :: 0 <= i < |a.members| ==> !Hides(a.members[i]) && TellsAll(a.members[i].value)
  }

  lemma OwnOrHidden(member: Member, b: seq<Member>)
    requires Proper(member.value) && DeepEqual(member.value, Read(b, member.key))
    ensures HasKey(b, member.key) || Hides(member)
  {
  }

  lemma {:induction false} DeepEqualIfTold(a: Json, b: Json)
    requires Proper(a) && Proper(b) && TellsAll(a)
    ensures DeepEqual(a, b) <==> Meaning(a) == Meaning(b)
    decreases a
  {
    if a.Obj? && b.Obj? {
      forall i | 0 <= i < |a.members| && HasKey(b.members, a.members[i].key)
        ensures SameAt(a.members[i].value, Get(b.members, a.members[i].key))
      {
        GetProper(b, a.members[i].key);
        DeepEqualIfTold(a.members[i].value, Get(b.members, a.members[i].key));
      }
      if DeepEqual(a, b) {
        EqualMeansSame(a, b);
      }
      if Meaning(a) == Meaning(b) {
        SameMeansEqual(a, b);
      }
    }
  }

  predicate SameAt(a: Json, b: Json) {
    DeepEqual(a, b) <==> Meaning(a) == Meaning(b)
  }

  lemma GetProper(b: Json, key: string)
    requires Proper(b) && b.Obj?
    ensures Proper(Get(b.members, key))
  {
    GetMissing(b.members, key);
  }

  lemma EqualMeansSame(a: Json, b: Json)
    requires Proper(a) && Proper(b) && TellsAll(a) && a.Obj? && b.Obj? && DeepEqual(a, b)
    requires forall i :: 0 <= i < |a.members| && HasKey(b.members, a.members[i].key) ==>
               SameAt(a.members[i].value, Get(b.members, a.members[i].key))
    ensures Meaning(a) == Meaning(b)
  {
    forall i | 0 <= i < |a.members| ensures HasKey(b.members, a.members[i].key) {
      OwnOrHidden(a.members[i], b.members);
    }
    forall key
      ensures key in MeaningOf(a.members) <==> key in MeaningOf(b.members)
      ensures key in MeaningOf(a.members) ==> MeaningOf(a.members)[key] == MeaningOf(b.members)[key]
    {
      KeysCoincide(a.members, b.members, key);
      MeaningKeys(a.members, key);
      MeaningKeys(b.members, key);
      if HasKey(a.members, key) {
        var i :| 0 <= i < |a.members| && a.members[i].key == key;
        GetMember(a.members, i);
        assert SameAt(a.members[i].value, Get(b.members, a.members[i].key));
      }
    }
  }

  lemma SameMeansEqual(a: Json, b: Json)
    requires Proper(a) && Proper(b) && a.Obj? && b.Obj? && Meaning(a) == Meaning(b)
    requires forall i :: 0 <= i < |a.members| && HasKey(b.members, a.members[i].key) ==>
               SameAt(a.members[i].value, Get(b.members, a.members[i].key))
    ensures DeepEqual(a, b)
  {
    forall i | 0 <= i < |a.members|
      ensures DeepEqual(a.members[i].value, Read(b.members, a.members[i].key))
    {
      var key := a.members[i].key;
      assert HasKey(a.members, key);
      MeaningKeys(a.members, key);
      MeaningKeys(b.members, key);
      GetMember(a.members, i);
      assert SameAt(a.members[i].value, Get(b.members, key));
    }
    assert KeySet(a.members) == KeySet(b.members) by {
      forall key ensures key in KeySet(a.members) <==> key in KeySet(b.members) {
        MeaningKeys(a.members, key);
        MeaningKeys(b.members, key);
      }
    }
    KeySetSize(a.members);
    KeySetSize(b.members);
  }

  /** Every value equals itself, by its contents. */
  lemma {:induction false} DeepEqualSame(a: Json)
    requires Proper(a)
    ensures DeepEqual(a, a)
  {
    if a.Obj? {
      forall i | 0 <= i < |a.members|
        ensures DeepEqual(a.members[i].value, Read(a.members, a.members[i].key))
      {
        GetMember(a.members, i);
        DeepEqualSame(a.members[i].value);
      }
    }
  }

  /** A key no member has. */
  function UnusedKey(members: seq<Member>): (key: string)
    ensures forall i :: 0 <= i < |members| ==> |members[i].key| < |key|
  {
    if members == [] then "?"
    else
      var key := UnusedKey(members[1..]);
      assert forall i :: 0 < i < |members| ==> members[i] == members[1..][i - 1];
      if |members[0].key| < |key| then key else members[0].key + "?"
  }

  /** Replacing one member: what every other key reads stays. */
  lemma ReplacedMember(members: seq<Member>, i: nat, now: Member, j: nat)
    requires Distinct(members) && i < |members| && j < |members|
    requires now.key == members[i].key || !HasKey(members, now.key)
    ensures Distinct(members[i := now])
    ensures Read(members[i := now], now.key) == now.value
    ensures j != i ==> Read(members[i := now], members[j].key) == members[j].value
    ensures now.key != members[i].key ==> Read(members[i := now], members[i].key) == Inherited(members[i].key)
  {
    var next := members[i := now];
    assert forall k :: 0 <= k < |members| && k != i ==> next[k] == members[k];
    assert next[i] == now;
    assert Distinct(next) by {
      forall k, l | 0 <= k < l < |next| ensures next[k].key != next[l].key {
        assert members[k].key != members[l].key;
        assert HasKey(members, members[k].key) && HasKey(members, members[l].key);
      }
    }
    GetMember(next, i);
    GetMember(next, j);
    assert HasKey(next, now.key) && HasKey(next, next[j].key);
  }

  /** Whatever hides something has a double that `deepEqual` takes for it and that means another thing. */
  lemma {:induction false} Disguised(a: Json) returns (b: Json)
    requires Proper(a) && !TellsAll(a)
    ensures Proper(b) && DeepEqual(a, b) && Meaning(a) != Meaning(b)
    decreases a
  {
    var members := a.members;
    var i :| 0 <= i < |members| && (Hides(members[i]) || !TellsAll(members[i].value));
    var now: Member;
    if Hides(members[i]) {
      now := Member(UnusedKey(members), Null);
    } else {
      var inner := Disguised(members[i].value);
      now := Member(members[i].key, inner);
    }
    b := Obj(members[i := now]);
    forall j | 0 <= j < |members| ensures DeepEqual(members[j].value, Read(b.members, members[j].key)) {
      ReplacedMember(members, i, now, j);
      DeepEqualSame(members[j].value);
    }
    ReplacedMember(members, i, now, i);
    assert b.members[i] == now;
    MeaningKeys(b.members, now.key);
    MeaningKeys(members, now.key);
    GetMember(members, i);
  }

  /** `deepEqual` from a value decides equality of meaning with every other value if and only if the value
      hides nothing. */
  lemma DeepEqualIffSameMeaning(a: Json)
    requires Proper(a)
    ensures (forall b :: Proper(b) ==> (DeepEqual(a, b) <==> Meaning(a) == Meaning(b))) <==> TellsAll(a)
  {
    if TellsAll(a) {
      forall b | Proper(b) ensures DeepEqual(a, b) <==> Meaning(a) == Meaning(b) {
        DeepEqualIfTold(a, b);
      }
    } else {
      var b := Disguised(a);
      assert Proper(b) && DeepEqual(a, b) && Meaning(a) != Meaning(b);
    }
  }

  /** One member holding what a missing one reads matches any other one member. */
  lemma HiddenMatchesAny(key: string, other: string, value: Json)
    requires key != other && !InheritedFunction(key) && Inherited(other) == Undefined
    requires Proper(value) && value != Undefined
    ensures
      var a, b := Obj([Member(key, Inherited(key))]), Obj([Member(other, value)]);
      Proper(a) && Proper(b) && DeepEqual(a, b) && !DeepEqual(b, a) && Meaning(a) != Meaning(b)
  {
    var am, bm := [Member(key, Inherited(key))], [Member(other, value)];
    assert am[0].key == key && bm[0] == Member(other, value);
    assert !HasKey(bm, key) && !HasKey(am, other) && HasKey(bm, other);
    DeepEqualSame(Inherited(key));
    assert !DeepEqual(bm[0].value, Read(am, bm[0].key));
    MeaningKeys(am, other);
    MeaningKeys(bm, other);
  }

  /** An `undefined` on the left matches a missing key on the right. */
  lemma UndefinedHidesAKey()
    ensures
      var a, b := Obj([Member("x", Undefined)]), Obj([Member("z", Num(1))]);
      Proper(a) && Proper(b) && DeepEqual(a, b) && !DeepEqual(b, a) && Meaning(a) != Meaning(b)
  {
    HiddenMatchesAny("x", "z", Num(1));
  }

  /** So does an own `__proto__` that is an empty object, which JSON can spell. */
  lemma ProtoHidesAKey()
    ensures
      var a, b := Obj([Member("__proto__", Obj([]))]), Obj([Member("z", Num(1))]);
      && Proper(a) && Proper(b) && Defined(a) && Defined(b)
      && DeepEqual(a, b) && !DeepEqual(b, a) && Meaning(a) != Meaning(b)
  {
    HiddenMatchesAny("__proto__", "z", Num(1));
  }

  // ---------------------------------------------------------------- only the meaning matters

  lemma SameKeys(a: Json, b: Json, key: string)
    requires Proper(a) && Proper(b) && a.Obj? && b.Obj? && Meaning(a) == Meaning(b)
    ensures HasKey(a.members, key) <==> HasKey(b.members, key)
    ensures HasKey(a.members, key) ==> Meaning(Get(a.members, key)) == Meaning(Get(b.members, key))
  {
    MeaningKeys(a.members, key);
    MeaningKeys(b.members, key);
  }

  lemma SameSize(a: Json, b: Json)
    requires Proper(a) && Proper(b) && a.Obj? && b.Obj? && Meaning(a) == Meaning(b)
    ensures |a.members| == |b.members|
  {
    KeySetSize(a.members);
    KeySetSize(b.members);
    assert KeySet(a.members) == KeySet(b.members) by {
      forall key ensures key in KeySet(a.members) <==> key in KeySet(b.members) {
        SameKeys(a, b, key);
      }
    }
  }

  lemma GetIsInside(a: Json, key: string)
    requires Proper(a) && a.Obj? && HasKey(a.members, key)
    ensures Proper(Get(a.members, key))
    ensures exists i :: 0 <= i < |a.members| && a.members[i] == Member(key, Get(a.members, key))
  {
    var i :| 0 <= i < |a.members| && a.members[i].key == key;
    GetMember(a.members, i);
  }

  /** Values of one meaning are interchangeable on either side of `deepEqual`. */
  lemma {:induction false} DeepEqualRespects(a: Json, a2: Json, b: Json, b2: Json)
    requires Proper(a) && Proper(a2) && Proper(b) && Proper(b2)
    requires Meaning(a) == Meaning(a2) && Meaning(b) == Meaning(b2) && DeepEqual(a, b)
    ensures DeepEqual(a2, b2)
    decreases a
  {
    if a.Obj? {
      SameSize(a, a2);
      SameSize(b, b2);
      forall i | 0 <= i < |a2.members|
        ensures DeepEqual(a2.members[i].value, Read(b2.members, a2.members[i].key))
      {
        var key := a2.members[i].key;
        GetMember(a2.members, i);
        assert HasKey(a2.members, key);
        SameKeys(a, a2, key);
        SameKeys(b, b2, key);
        GetIsInside(a, key);
        var j :| 0 <= j < |a.members| && a.members[j] == Member(key, Get(a.members, key));
        assert DeepEqual(a.members[j].value, Read(b.members, key));
        if HasKey(b.members, key) {
          GetProper(b, key);
          GetProper(b2, key);
          DeepEqualRespects(a.members[j].value, a2.members[i].value, Get(b.members, key), Get(b2.members, key));
        } else {
          DeepEqualRespects(a.members[j].value, a2.members[i].value, Inherited(key), Inherited(key));
        }
      }
    }
  }

  lemma SameMeaningIsEqual(a: Json, b: Json)
    requires Proper(a) && Proper(b) && Meaning(a) == Meaning(b)
    ensures DeepEqual(a, b)
  {
    DeepEqualSame(a);
    DeepEqualRespects(a, a, a, b);
  }

  /** Hiding is a matter of meaning. */
  lemma TellsAllRespects(a: Json, b: Json)
    requires Proper(a) && Proper(b) && Meaning(a) == Meaning(b) && TellsAll(a)
    ensures TellsAll(b)
  {
    DeepEqualIffSameMeaning(b);
    forall c | Proper(c) ensures DeepEqual(b, c) <==> Meaning(b) == Meaning(c) {
      DeepEqualIfTold(a, c);
      if DeepEqual(b, c) {
        DeepEqualRespects(b, a, c, c);
      }
      if DeepEqual(a, c) {
        DeepEqualRespects(a, b, c, c);
      }
    }
  }
}
