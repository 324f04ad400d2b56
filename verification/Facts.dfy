/** Fact trees and the two walkers over them: the evaluator's traverseHash
    (query/functions.go) and the REPL's factPath and factChildren
    (query/repl/data.go). */
module Facts {
  import opened Text

  /** What a YAML-like unmarshaller leaves in an interface{} */
  datatype Value =
    | Nil
    | Scalar(text: string)
    | Object(fields: map<string, Value>)
    | List(items: seq<Value>)

  /** Go's 64-bit int, which wraps around */
  function WrapInt64(n: int): (w: int)
    ensures -MAX_INT64 - 1 <= w <= MAX_INT64
    ensures -MAX_INT64 - 1 <= n <= MAX_INT64 ==> w == n
  {
    (n + MAX_INT64 + 1) % (2 * (MAX_INT64 + 1)) - MAX_INT64 - 1
  }

  // ------------------------------------------------------------- reference

  /** One path segment down: a key of an object, or an index into a list */
  function Down(v: Value, key: string): Option<Value> {
    match v
    case Object(fields) => if key in fields then Some(fields[key]) else None
    case List(items) =>
      (match Atoi(key)
       case Some(i) => if 0 <= i < |items| then Some(items[i]) else None
       case None => None)
    case _ => None
  }

  /** What a path denotes */
  function Walk(v: Value, keys: seq<string>): Option<Value> {
    if keys == [] then Some(v)
    else
      match Down(v, keys[0])
      case None => None
      case Some(next) => Walk(next, keys[1..])
  }

  lemma {:induction false} WalkAppend(v: Value, keys: seq<string>, key: string)
    ensures Walk(v, keys + [key]) ==
            match Walk(v, keys) case None => None case Some(at) => Down(at, key)
  {
    var longer := keys + [key];
    if keys == [] {
      assert longer[0] == key && longer[1..] == [];
    } else {
      assert longer[0] == keys[0] && longer[1..] == keys[1..] + [key];
      match Down(v, keys[0])
      case None =>
      case Some(next) => WalkAppend(next, keys[1..], key);
    }
  }

  /** The last int of all, used as an index into a list */
  predicate Overruns(v: Value, key: string) {
    v.List? && Atoi(key) == Some(MAX_INT64)
  }

  /** The walk along keys comes to a list with that index next */
  ghost predicate WalkOverruns(v: Value, keys: seq<string>) {
    exists i :: 0 <= i < |keys| && Walk(v, keys[..i]).Some? && Overruns(Walk(v, keys[..i]).value, keys[i])
  }

  // ------------------------------------------------------------- factPath

  method FactPath(facts: map<string, Value>, keys: seq<string>) returns (value: Value, ok: bool)
    ensures ok <==> Walk(Object(facts), keys).Some?
    ensures ok ==> value == Walk(Object(facts), keys).value
    ensures !ok ==> value == Nil
  {
    var current := Object(facts);
    for i := 0 to |keys|
      invariant Walk(Object(facts), keys) == Walk(current, keys[i..])
    {
      var key := keys[i];
      assert keys[i..][0] == key && keys[i..][1..] == keys[i + 1..];
      match current {
        case Object(fields) =>
          if key !in fields { return Nil, false; }
          current := fields[key];
        case List(items) =>
          var idx := Atoi(key);
          if idx.None? || idx.value < 0 || idx.value >= |items| { return Nil, false; }
          current := items[idx.value];
        case _ =>
          return Nil, false;
      }
    }
    assert keys[|keys|..] == [];
    return current, true;
  }

  // ------------------------------------------------------------- traverseHash

  /** crashed reports the index-out-of-range panic: the bound check is
      iarg+1 > len(v), and the sum wraps around for the last int. */
  method TraverseHash(args: seq<string>, hash: map<string, Value>) returns (value: Value, crashed: bool)
    requires ListsFit(Object(hash))
    ensures crashed <==> WalkOverruns(Object(hash), args)
    ensures !crashed ==> value == (match Walk(Object(hash), args) case Some(v) => v case None => Nil)
    ensures crashed ==> Walk(Object(hash), args) == None
  {
    var whole := Object(hash);
    var root := whole;
    for i := 0 to |args|
      invariant Walk(whole, args[..i]) == Some(root)
      invariant Walk(whole, args) == Walk(root, args[i..])
      invariant forall j :: 0 <= j < i && Walk(whole, args[..j]).Some? ==>
          !Overruns(Walk(whole, args[..j]).value, args[j])
      invariant ListsFit(root)
    {
      var arg := args[i];
      assert args[i..][0] == arg && args[i..][1..] == args[i + 1..];
      assert args[..i + 1] == args[..i] + [arg];
      WalkAppend(whole, args[..i], arg);
      match root {
        case Object(fields) =>
          if arg in fields {
            root := fields[arg];
          } else {
            DeadEnd(whole, args, i);
            return Nil, false;
          }
        case List(items) =>
          var iarg := Atoi(arg);
          if iarg.None? {
            DeadEnd(whole, args, i);
            return Nil, false;
          }
          if iarg.value < 0 || WrapInt64(iarg.value + 1) > |items| {
            DeadEnd(whole, args, i);
            return Nil, false;
          } else if iarg.value >= |items| {
            assert Overruns(root, arg);
            return Nil, true;
          } else if i == |args| - 1 {
            assert args[..|args|] == args && args[|args|..] == [];
            return items[iarg.value], false;
          } else {
            root := items[iarg.value];
          }
        case _ =>
          DeadEnd(whole, args, i);
          return Nil, false;
      }
    }
    assert args[|args|..] == [];
    return root, false;
  }

  /** No Go slice is longer than the largest int */
  ghost predicate ListsFit(v: Value) {
    match v
    case Object(fields) => forall k :: k in fields ==> ListsFit(fields[k])
    case List(items) => |items| <= MAX_INT64 && forall i :: 0 <= i < |items| ==> ListsFit(items[i])
    case _ => true
  }

  lemma {:induction false} WalkPrefix(v: Value, keys: seq<string>, i: nat, j: nat)
    requires i <= j <= |keys| && Walk(v, keys[..i]) == None
    ensures Walk(v, keys[..j]) == None
  {
    if i < j {
      WalkPrefix(v, keys, i, j - 1);
      assert keys[..j] == keys[..j - 1] + [keys[j - 1]];
      WalkAppend(v, keys[..j - 1], keys[j - 1]);
    }
  }

  /** Once a segment does not resolve, nothing after it can. */
  lemma DeadEnd(v: Value, keys: seq<string>, i: nat)
    requires i < |keys| && Walk(v, keys[..i]).Some? && Down(Walk(v, keys[..i]).value, keys[i]) == None
    requires !Overruns(Walk(v, keys[..i]).value, keys[i])
    requires forall j :: 0 <= j < i && Walk(v, keys[..j]).Some? ==> !Overruns(Walk(v, keys[..j]).value, keys[j])
    ensures Walk(v, keys) == None && !WalkOverruns(v, keys)
  {
    assert keys[..i + 1] == keys[..i] + [keys[i]];
    WalkAppend(v, keys[..i], keys[i]);
    forall j | i < j <= |keys| ensures Walk(v, keys[..j]) == None {
      WalkPrefix(v, keys, i + 1, j);
    }
    assert keys[..|keys|] == keys;
  }

  // ------------------------------------------------------------- factChildren

  /** A sorted listing of a set of names */
  ghost function SortedKeys(keys: set<string>): (names: seq<string>)
    ensures Sorted(names) && Distinct(names) && Elements(names) == keys
  {
    if keys == {} then []
    else
      var k :| k in keys;
      var rest := SortedKeys(keys - {k});
      InsertNew(k, rest);
      Insert(k, rest)
  }

  ghost function Children(facts: map<string, Value>, keys: seq<string>): seq<string> {
    match Walk(Object(facts), keys)
    case Some(Object(fields)) => SortedKeys(fields.Keys)
    case Some(List(items)) => seq(|items|, i requires 0 <= i < |items| => Itoa(i))
    case _ => []
  }

  /** Sorting any duplicate-free collection of a set's members lists the set. */
  lemma SortGivesKeys(out: seq<string>)
    requires Distinct(out)
    ensures SortStrings(out) == SortedKeys(Elements(out))
  {
    SortStringsCorrect(out);
    SortKeepsDistinct(out);
    SortedListingUnique(SortStrings(out), SortedKeys(Elements(out)));
  }

  /** Collecting the keys of a Go map, in whatever order, and sorting them */
  method SortedNames<V>(fields: map<string, V>) returns (out: seq<string>)
    ensures out == SortedKeys(fields.Keys)
  {
    out := [];
    var left := fields.Keys;
    while left != {}
      invariant left <= fields.Keys && Distinct(out) && Elements(out) == fields.Keys - left
      decreases |left|
    {
      var k :| k in left;
      assert k !in Elements(out);
      assert Elements(out + [k]) == Elements(out) + {k};
      out := out + [k];
      left := left - {k};
    }
    assert Elements(out) == fields.Keys;
    SortGivesKeys(out);
    out := SortStrings(out);
  }

  method FactChildren(facts: map<string, Value>, keys: seq<string>) returns (out: seq<string>)
    ensures out == Children(facts, keys)
  {
    var node, ok := FactPath(facts, keys);
    if !ok { return []; }
    out := [];
    match node {
      case Object(fields) =>
        out := SortedNames(fields);
      case List(items) =>
        for i := 0 to |items|
          invariant |out| == i && forall j :: 0 <= j < i ==> out[j] == Itoa(j)
        {
          out := out + [Itoa(i)];
        }
      case _ =>
    }
  }

  // ------------------------------------------------------------- agreement

  /** Every name the REPL offers below a path extends it to one that resolves,
      and that the evaluator resolves without tripping. */
  lemma ChildrenResolve(facts: map<string, Value>, keys: seq<string>, child: string)
    requires ListsFit(Object(facts)) && child in Children(facts, keys)
    ensures Walk(Object(facts), keys + [child]).Some?
    ensures !WalkOverruns(Object(facts), keys + [child])
  {
    var whole := Object(facts);
    var longer := keys + [child];
    WalkAppend(whole, keys, child);
    WalkFits(whole, keys);
    var at := Walk(whole, keys).value;
    if at.List? {
      var i :| 0 <= i < |at.items| && child == Itoa(i);
      AtoiItoa(i);
    } else {
      assert child in Elements(SortedKeys(at.fields.Keys));
    }
    ResolvedNeverOverruns(whole, longer);
  }

  lemma OverrunIsDeadEnd(v: Value, keys: seq<string>, i: nat)
    requires ListsFit(v) && i < |keys| && Walk(v, keys[..i]).Some? && Overruns(Walk(v, keys[..i]).value, keys[i])
    ensures Walk(v, keys) == None
  {
    WalkFits(v, keys[..i]);
    assert keys[..i + 1] == keys[..i] + [keys[i]];
    WalkAppend(v, keys[..i], keys[i]);
    WalkPrefix(v, keys, i + 1, |keys|);
    assert keys[..|keys|] == keys;
  }

  /** A path that leads somewhere does not trip the evaluator on the way. */
  lemma ResolvedNeverOverruns(v: Value, keys: seq<string>)
    requires ListsFit(v) && Walk(v, keys).Some?
    ensures !WalkOverruns(v, keys)
  {
    forall i | 0 <= i < |keys| && Walk(v, keys[..i]).Some? ensures !Overruns(Walk(v, keys[..i]).value, keys[i]) {
      if Overruns(Walk(v, keys[..i]).value, keys[i]) { OverrunIsDeadEnd(v, keys, i); }
    }
  }

  lemma {:induction false} WalkFits(v: Value, keys: seq<string>)
    requires ListsFit(v)
    ensures Walk(v, keys).Some? ==> ListsFit(Walk(v, keys).value)
  {
    if keys != [] && Down(v, keys[0]).Some? {
      WalkFits(Down(v, keys[0]).value, keys[1..]);
    }
  }

  /** And nothing is held back: below an object exactly the offered names
      resolve, below a list exactly the offered indexes are in range. */
  lemma ChildrenComplete(facts: map<string, Value>, keys: seq<string>, key: string)
    requires ListsFit(Object(facts)) && Walk(Object(facts), keys).Some?
    ensures !Walk(Object(facts), keys).value.List? ==>
              (Walk(Object(facts), keys + [key]).Some? <==> key in Children(facts, keys))
    ensures Walk(Object(facts), keys).value.List? && Walk(Object(facts), keys + [key]).Some? ==>
              exists i: nat :: Atoi(key) == Some(i) && Itoa(i) in Children(facts, keys)
  {
    WalkAppend(Object(facts), keys, key);
    var at := Walk(Object(facts), keys).value;
    match at
    case Object(fields) => assert key in Elements(SortedKeys(fields.Keys)) <==> key in fields;
    case List(items) =>
      if Down(at, key).Some? {
        assert Children(facts, keys)[Atoi(key).value] == Itoa(Atoi(key).value);
      }
    case _ =>
  }

  /** The one index the walkers part on, met by a real list. */
  lemma LastIntCrashes()
    ensures var facts := map["disks" := List([Scalar("sda")])];
            var keys := ["disks", Itoa(MAX_INT64)];
            Walk(Object(facts), keys) == None && WalkOverruns(Object(facts), keys)
  {
    var facts := map["disks" := List([Scalar("sda")])];
    var keys := ["disks", Itoa(MAX_INT64)];
    AtoiItoa(MAX_INT64);
    assert keys[..1] == ["disks"] && keys[1..] == [Itoa(MAX_INT64)];
    assert Walk(Object(facts), keys[..1]) == Some(facts["disks"]) by { assert keys[..1][1..] == []; }
    assert Overruns(Walk(Object(facts), keys[..1]).value, keys[1]);
  }
}
