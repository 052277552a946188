/** Resolving a dotted filter key against the entity classes: the declared type at the
    end of a path, the first collection field on it, and the split of the key at that
    collection into the collection's path and the field path inside its elements. */
module Paths {
  import opened Wrappers
  import opened Text
  import opened Types
  import opened Errors

  /** `s.split("\\.", 2)` never leaves a separator in its first part, and splitting a
      joined path gives its parts back. */
  lemma {:induction false} SplitFirstJoin(head: string, rest: string)
    requires '.' !in head
    ensures SplitFirst(head + "." + rest, '.') == (head, Some(rest))
  {
    if |head| > 0 {
      assert (head + "." + rest)[1..] == head[1..] + "." + rest;
      SplitFirstJoin(head[1..], rest);
      assert [head[0]] + head[1..] == head;
    }
  }

  lemma {:induction false} SplitFirstWhole(head: string)
    requires '.' !in head
    ensures SplitFirst(head, '.') == (head, None)
  {
    if |head| > 0 {
      SplitFirstWhole(head[1..]);
      assert [head[0]] + head[1..] == head;
    }
  }

  /** `QueryDslTypeManager.getTypeFrom`: the declared class of the last field of `path`,
      following declared types; a segment that is not a declared field is an error naming
      the remaining path and the class it was looked up in. */
  function TypeOf(schema: Schema, t: JavaType, path: string): (r: Res<JavaType>)
    decreases |path|
    ensures r.Err? ==> r.error.TypeSearchFailed?
  {
    var (head, rest) := SplitFirst(path, '.');
    if (t, head) !in schema then Err(TypeSearchFailed(path, t))
    else if rest.None? then Ok(schema[(t, head)].declaredType)
    else TypeOf(schema, schema[(t, head)].declaredType, rest.value)
  }

  /** The collection manager's `getTypeFrom`: as `TypeOf`, but every collection field
      stands for its element class. */
  function ElementTypeAlong(schema: Schema, t: JavaType, path: string): (r: Res<JavaType>)
    decreases |path|
    ensures r.Err? ==> r.error.TypeSearchFailed?
  {
    var (head, rest) := SplitFirst(path, '.');
    if (t, head) !in schema then Err(TypeSearchFailed(path, t))
    else if rest.None? then Ok(ElementTypeOf(schema[(t, head)]))
    else ElementTypeAlong(schema, ElementTypeOf(schema[(t, head)]), rest.value)
  }

  /** Both walks agree on a path whose fields are none of them collections. */
  lemma {:induction false} WalksAgreeWithoutCollections(schema: Schema, t: JavaType, path: string)
    requires CollectionFieldName(schema, t, path) == Ok(None)
    ensures ElementTypeAlong(schema, t, path) == TypeOf(schema, t, path)
    decreases |path|
  {
    var (head, rest) := SplitFirst(path, '.');
    if rest.Some? {
      WalksAgreeWithoutCollections(schema, schema[(t, head)].declaredType, rest.value);
    }
  }

  /** `getCollectionFieldName`: the name of the first collection field along `path`, or
      none when the path ends first. */
  function CollectionFieldName(schema: Schema, t: JavaType, path: string): (r: Res<Option<string>>)
    decreases |path|
    ensures r.Err? ==> r.error.CollectionCheckFailed?
    ensures r.Ok? && r.value.Some? ==> '.' !in r.value.value
  {
    var (head, rest) := SplitFirst(path, '.');
    if (t, head) !in schema then Err(CollectionCheckFailed(path, t))
    else if IsCollection(schema[(t, head)].declaredType) then Ok(Some(head))
    else if rest.Some? then CollectionFieldName(schema, ElementTypeOf(schema[(t, head)]), rest.value)
    else Ok(None)
  }

  /** `pathHasCollection`: a non-blank collection field name was found. */
  function PathHasCollection(schema: Schema, t: JavaType, path: string): (r: Res<bool>)
    ensures r.Ok? ==> CollectionFieldName(schema, t, path).Ok?
    ensures r.Ok? ==> (r.value <==>
      CollectionFieldName(schema, t, path).value.Some? && !IsBlank(CollectionFieldName(schema, t, path).value))
    ensures r.Err? <==> CollectionFieldName(schema, t, path).Err?
  {
    var name :- CollectionFieldName(schema, t, path);
    Ok(!IsBlank(name))
  }

  /** `PathToProcess`: the path of the collection field, and the path that continues
      inside each of its elements. */
  datatype PathToProcess = PathToProcess(collectionPath: string, fieldPath: string)

  /** `getQueryDslPathToProcess` as written: the key is split textually at the first
      occurrence of the collection name followed by a dot, wherever it occurs. */
  function SplitAtNameAsWritten(path: string, name: string): (r: Res<PathToProcess>)
    ensures r.Err? <==> IndexOf(path, name + ".").None?
    ensures r.Err? ==> r.error == CollectionFieldNotFound(path)
    ensures r.Ok? ==> r.value.collectionPath + "." + r.value.fieldPath == path
  {
    match IndexOf(path, name + ".")
    case None => Err(CollectionFieldNotFound(path))
    case Some(i) =>
      NameDotSplits(path, name, i);
      Ok(PathToProcess(path[..i] + name, path[i + |name| + 1..]))
  }

  /** The text up to and including `name`, a dot, and the text after the dot make up the
      path back again. */
  lemma NameDotSplits(s: string, name: string, i: nat)
    requires OccursAt(s, name + ".", i)
    ensures (s[..i] + name) + "." + s[i + |name| + 1..] == s
  {
    assert s == s[..i] + s[i..i + |name| + 1] + s[i + |name| + 1..];
  }

  /** The split at the collection field itself: the segments up to and including the
      first collection field, and the segments after it. */
  function SplitAtCollection(schema: Schema, t: JavaType, path: string): (r: Res<PathToProcess>)
    decreases |path|
    ensures r.Ok? ==> r.value.collectionPath + "." + r.value.fieldPath == path
  {
    var (head, rest) := SplitFirst(path, '.');
    if (t, head) !in schema then Err(CollectionCheckFailed(path, t))
    else if IsCollection(schema[(t, head)].declaredType) then
      if rest.Some? then Ok(PathToProcess(head, rest.value)) else Err(CollectionFieldNotFound(path))
    else if rest.Some? then
      var inner :- SplitAtCollection(schema, ElementTypeOf(schema[(t, head)]), rest.value);
      Ok(PathToProcess(head + "." + inner.collectionPath, inner.fieldPath))
    else Err(CollectionFieldNotFound(path))
  }

  /** `name` is the last segment of the dotted path `p`. */
  predicate EndsWithSegment(p: string, name: string) {
    |name| <= |p| && p[|p| - |name|..] == name && (|p| == |name| || p[|p| - |name| - 1] == '.')
  }

  lemma EndsWithSegmentJoin(head: string, p: string, name: string)
    requires EndsWithSegment(p, name)
    ensures EndsWithSegment(head + "." + p, name)
  {
    var q := head + "." + p;
    assert q[|q| - |name|..] == p[|p| - |name|..];
    if |p| == |name| {
      assert q[|q| - |name| - 1] == '.';
    } else {
      assert q[|q| - |name| - 1] == p[|p| - |name| - 1];
    }
  }

  /** When the split at the collection succeeds, its collection path ends in exactly the
      field `getCollectionFieldName` found, and the collection manager's type walk resolves
      that path. */
  lemma {:induction false} SplitAtCollectionFindsTheField(schema: Schema, t: JavaType, path: string, name: string)
    requires CollectionFieldName(schema, t, path) == Ok(Some(name))
    requires SplitAtCollection(schema, t, path).Ok?
    ensures EndsWithSegment(SplitAtCollection(schema, t, path).value.collectionPath, name)
    ensures ElementTypeAlong(schema, t, SplitAtCollection(schema, t, path).value.collectionPath).Ok?
    decreases |path|
  {
    var (head, rest) := SplitFirst(path, '.');
    var f := schema[(t, head)];
    if IsCollection(f.declaredType) {
      SplitFirstWhole(head);
    } else {
      var more := rest.value;
      SplitAtCollectionFindsTheField(schema, ElementTypeOf(f), more, name);
      var inner := SplitAtCollection(schema, ElementTypeOf(f), more).value;
      SplitFirstJoin(head, inner.collectionPath);
      EndsWithSegmentJoin(head, inner.collectionPath, name);
    }
  }

  /** The split at the collection fails only when the collection field is the key's
      last segment. */
  lemma {:induction false} SplitAtCollectionFailsAtTheEnd(schema: Schema, t: JavaType, path: string, name: string)
    requires CollectionFieldName(schema, t, path) == Ok(Some(name))
    requires SplitAtCollection(schema, t, path).Err?
    ensures SplitAtCollection(schema, t, path).error.CollectionFieldNotFound?
    ensures EndsWithSegment(path, name)
    decreases |path|
  {
    var (head, rest) := SplitFirst(path, '.');
    var f := schema[(t, head)];
    if !IsCollection(f.declaredType) {
      var more := rest.value;
      assert path == head + "." + more;
      SplitAtCollectionFailsAtTheEnd(schema, ElementTypeOf(f), more, name);
      EndsWithSegmentJoin(head, more, name);
    }
  }

  /** Where the textual split finds no `name.` at all, the segment split fails too. */
  lemma SplitAtCollectionNeedsTheText(schema: Schema, t: JavaType, path: string, name: string)
    requires CollectionFieldName(schema, t, path) == Ok(Some(name))
    requires IndexOf(path, name + ".").None?
    ensures SplitAtCollection(schema, t, path).Err? &&
            SplitAtCollection(schema, t, path).error.CollectionFieldNotFound?
  {
    var r := SplitAtCollection(schema, t, path);
    if r.Ok? {
      SplitAtCollectionFindsTheField(schema, t, path, name);
      SegmentBeforeDot(r.value.collectionPath, name, r.value.fieldPath);
      assert false;
    } else {
      SplitAtCollectionFailsAtTheEnd(schema, t, path, name);
    }
  }

  /** A path ending in the segment `name`, followed by a dot, holds `name.` there. */
  lemma SegmentBeforeDot(p: string, name: string, rest: string)
    requires EndsWithSegment(p, name)
    ensures OccursAt(p + "." + rest, name + ".", |p| - |name|)
  {
    var s, k := p + "." + rest, |p| - |name|;
    assert s[k..k + |name| + 1] == p[k..] + ".";
  }

  /** An entity `User` with a plain field `myaccounts` of class `Holder`, which has a
      collection `accounts` of `BankAccount`s, each with an `amount`. */
  function NestedSchema(): (r: Schema)
    ensures (ClassType("User"), "myaccounts") in r && !IsCollection(r[(ClassType("User"), "myaccounts")].declaredType)
    ensures (ClassType("Holder"), "accounts") in r && IsCollection(r[(ClassType("Holder"), "accounts")].declaredType)
  {
    map[(ClassType("User"), "myaccounts") := Field(ClassType("Holder"), None),
        (ClassType("Holder"), "accounts") := Field(CollectionType("List"), Some(ClassType("BankAccount"))),
        (ClassType("BankAccount"), "amount") := Field(BoxedNumber("Double"), None)]
  }

  /** One step of the collection walks through a plain field. */
  lemma PlainFieldStep(schema: Schema, t: JavaType, head: string, rest: string)
    requires '.' !in head && (t, head) in schema && !IsCollection(schema[(t, head)].declaredType)
    ensures CollectionFieldName(schema, t, head + "." + rest) ==
      CollectionFieldName(schema, ElementTypeOf(schema[(t, head)]), rest)
    ensures SplitAtCollection(schema, t, head + "." + rest) ==
      match SplitAtCollection(schema, ElementTypeOf(schema[(t, head)]), rest)
      case Ok(p) => Ok(PathToProcess(head + "." + p.collectionPath, p.fieldPath))
      case Err(e) => Err(e)
  {
    SplitFirstJoin(head, rest);
  }

  /** One step of the element-class walk. */
  lemma ElementTypeStep(schema: Schema, t: JavaType, head: string, rest: string)
    requires '.' !in head && (t, head) in schema
    ensures ElementTypeAlong(schema, t, head + "." + rest) ==
      ElementTypeAlong(schema, ElementTypeOf(schema[(t, head)]), rest)
  {
    SplitFirstJoin(head, rest);
  }

  /** One step of the collection walks that reaches the collection field. */
  lemma CollectionFieldStep(schema: Schema, t: JavaType, head: string, rest: string)
    requires '.' !in head && (t, head) in schema && IsCollection(schema[(t, head)].declaredType)
    ensures CollectionFieldName(schema, t, head + "." + rest) == Ok(Some(head))
    ensures SplitAtCollection(schema, t, head + "." + rest) == Ok(PathToProcess(head, rest))
  {
    SplitFirstJoin(head, rest);
  }

  lemma NestedKeyParts()
    ensures "myaccounts.accounts.amount" == "myaccounts" + "." + ("accounts" + "." + "amount")
    ensures "myaccounts.accounts" == "myaccounts" + "." + "accounts"
  {
  }

  /** Walking `myaccounts.accounts.amount` finds the collection `accounts` one level
      down, and splitting at that segment puts the collection at `myaccounts.accounts`. */
  lemma NestedCollectionSplit()
    ensures CollectionFieldName(NestedSchema(), ClassType("User"), "myaccounts.accounts.amount") == Ok(Some("accounts"))
    ensures SplitAtCollection(NestedSchema(), ClassType("User"), "myaccounts.accounts.amount") ==
      Ok(PathToProcess("myaccounts.accounts", "amount"))
  {
    var schema := NestedSchema();
    NestedKeyParts();
    PlainFieldStep(schema, ClassType("User"), "myaccounts", "accounts" + "." + "amount");
    CollectionFieldStep(schema, ClassType("Holder"), "accounts", "amount");
  }

  /** The textual split at the first occurrence of `name.`. */
  lemma TextualSplitAt(path: string, name: string, i: nat)
    requires OccursAt(path, name + ".", i)
    requires forall j :: 0 <= j < i ==> !OccursAt(path, name + ".", j)
    ensures SplitAtNameAsWritten(path, name) == Ok(PathToProcess(path[..i] + name, path[i + |name| + 1..]))
  {
    assert IndexOfFrom(path, name + ".", 0) == Some(i) by {
      var k := 0;
      while k < i
        invariant 0 <= k <= i
        invariant IndexOfFrom(path, name + ".", 0) == IndexOfFrom(path, name + ".", k)
      {
        assert !OccursAt(path, name + ".", k);
        k := k + 1;
      }
    }
  }

  lemma OccursInJoin(a: string, p: string, b: string)
    ensures OccursAt(a + p + b, p, |a|)
    ensures (a + p + b)[..|a|] == a && (a + p + b)[|a| + |p|..] == b
  {
    assert (a + p + b)[|a|..|a| + |p|] == p;
  }

  lemma NestedKeyJoin()
    ensures "myaccounts.accounts.amount" == "my" + "accounts." + "accounts.amount"
  {
  }

  lemma NestedKeyOccurrences(key: string, p: string)
    requires key == "myaccounts.accounts.amount" && p == "accounts."
    ensures OccursAt(key, p, 2)
    ensures forall j :: 0 <= j < 2 ==> !OccursAt(key, p, j)
    ensures key[..2] + "accounts" == "myaccounts" && key[2 + |p|..] == "accounts.amount"
  {
    NestedKeyJoin();
    OccursInJoin("my", p, "accounts.amount");
    assert key[0] != p[0] && key[1] != p[0];
    assert "my" + "accounts" == "myaccounts";
  }

  /** The textual split looks for `accounts.` anywhere in the key and finds it inside
      `myaccounts.`. */
  lemma TextualSplitOfNestedKey()
    ensures SplitAtNameAsWritten("myaccounts.accounts.amount", "accounts") ==
      Ok(PathToProcess("myaccounts", "accounts.amount"))
  {
    NestedKeyOccurrences("myaccounts.accounts.amount", "accounts" + ".");
    TextualSplitAt("myaccounts.accounts.amount", "accounts", 2);
  }

  /** So it names the plain field `myaccounts`, of class `Holder`, as the collection,
      where the segment split names `myaccounts.accounts`. */
  lemma TextualSplitMisplacesCollection()
    ensures SplitAtNameAsWritten("myaccounts.accounts.amount", "accounts") ==
      Ok(PathToProcess("myaccounts", "accounts.amount"))
    ensures ElementTypeAlong(NestedSchema(), ClassType("User"), "myaccounts") == Ok(ClassType("Holder"))
    ensures SplitAtNameAsWritten("myaccounts.accounts.amount", "accounts") !=
      SplitAtCollection(NestedSchema(), ClassType("User"), "myaccounts.accounts.amount")
  {
    TextualSplitOfNestedKey();
    NestedCollectionSplit();
    HolderField();
    var textual, segment := PathToProcess("myaccounts", "accounts.amount"), PathToProcess("myaccounts.accounts", "amount");
    assert |textual.collectionPath| != |segment.collectionPath|;
  }

  /** The plain field `myaccounts` of `User` holds a `Holder`. */
  lemma HolderField()
    ensures ElementTypeAlong(NestedSchema(), ClassType("User"), "myaccounts") == Ok(ClassType("Holder"))
  {
    SplitFirstWhole("myaccounts");
  }
}
