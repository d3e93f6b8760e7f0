/** The permission catalogue (config/permissions.js): the closure of a role's
    permissions under `requires`, validation, and the permission check. The
    catalogue is a parameter, an arbitrary finite graph. */
module Permissions {
  import opened Texts
  import opened TeamPermissions

  datatype Meta = Meta(needs: seq<string>, ownerOnly: bool)

  /** Entries by key, and the extra set of owner-only keys. */
  datatype Catalogue = Catalogue(entries: map<string, Meta>, ownerOnlyKeys: set<string>)

  predicate IsKnown(cat: Catalogue, key: string) {
    key == "*" || key in cat.entries
  }

  function Needs(cat: Catalogue, key: string): seq<string> {
    if key in cat.entries then cat.entries[key].needs else []
  }

  predicate OwnerOnly(cat: Catalogue, key: string) {
    key in cat.ownerOnlyKeys || (key in cat.entries && cat.entries[key].ownerOnly)
  }

  // ----- The dependency closure

  function Universe(cat: Catalogue): set<string> {
    cat.entries.Keys + {"*"}
  }

  /** A key the expansion keeps: known and not empty. */
  predicate Useful(cat: Catalogue, key: string) {
    key != "" && IsKnown(cat, key)
  }

  ghost predicate Includes(cat: Catalogue, keys: set<string>, s: set<string>) {
    forall k :: k in keys && Useful(cat, k) ==> k in s
  }

  ghost predicate Closed(cat: Catalogue, s: set<string>) {
    forall k, r :: k in s && r in Needs(cat, k) && Useful(cat, r) ==> r in s
  }

  /** What every closed set around the keys contains. */
  ghost predicate Unavoidable(cat: Catalogue, keys: set<string>, k: string) {
    forall s: set<string> :: Includes(cat, keys, s) && Closed(cat, s) ==> k in s
  }

  /** The least closed set that includes the keys. */
  ghost function Closure(cat: Catalogue, keys: set<string>): set<string> {
    set k | k in Universe(cat) && Unavoidable(cat, keys, k)
  }

  lemma ClosureOk(cat: Catalogue, keys: set<string>)
    ensures Includes(cat, keys, Closure(cat, keys))
    ensures Closed(cat, Closure(cat, keys))
  {
  }

  lemma ClosureLeast(cat: Catalogue, keys: set<string>, s: set<string>)
    requires Includes(cat, keys, s) && Closed(cat, s)
    ensures Closure(cat, keys) <= s
  {
  }

  /** Takes keys off the front of the queue until none is left, appending what
      each new one needs. Every new key is one of finitely many, so it ends, on
      cycles and duplicates too. */
  method ExpandDependencies(cat: Catalogue, keys: seq<string>) returns (result: seq<string>)
    ensures Elements(result) == Closure(cat, Elements(keys))
    ensures NoDuplicates(result)
  {
    ghost var goal := Closure(cat, Elements(keys));
    ClosureOk(cat, Elements(keys));
    result := [];
    var queue := keys;
    while queue != []
      invariant NoDuplicates(result)
      invariant Elements(result) <= goal
      invariant forall k :: k in queue && Useful(cat, k) ==> k in goal
      invariant Includes(cat, Elements(keys), Elements(result) + Elements(queue))
      invariant forall k, r :: k in Elements(result) && r in Needs(cat, k) && Useful(cat, r) ==> r in result || r in queue
      decreases Universe(cat) - Elements(result), |queue|
    {
      var key := queue[0];
      ghost var was := queue;
      queue := queue[1..];
      assert forall k :: k in was <==> k == key || k in queue;
      if key == "" || key in result || !IsKnown(cat, key) {
        continue;
      }
      ElementsSnoc(result, key);
      assert key in Universe(cat) - Elements(result);
      result := result + [key];
      queue := queue + Needs(cat, key);
    }
    assert Elements(queue) == {};
    ClosureLeast(cat, Elements(keys), Elements(result));
  }

  // ----- Laws of the closure

  lemma ClosureMonotone(cat: Catalogue, a: set<string>, b: set<string>)
    requires a <= b
    ensures Closure(cat, a) <= Closure(cat, b)
  {
  }

  lemma ClosureIdempotent(cat: Catalogue, keys: set<string>)
    ensures Closure(cat, Closure(cat, keys)) == Closure(cat, keys)
  {
  }

  /** The closure works key by key: that of a union is the union of the closures. */
  lemma ClosureOfUnion(cat: Catalogue, a: set<string>, b: set<string>)
    ensures Closure(cat, a + b) == Closure(cat, a) + Closure(cat, b)
  {
    ClosureMonotone(cat, a, a + b);
    ClosureMonotone(cat, b, a + b);
    ClosureOk(cat, a);
    ClosureOk(cat, b);
    ClosureLeast(cat, a + b, Closure(cat, a) + Closure(cat, b));
  }

  /** A chain of requirements: texts that are `*` or keys of the catalogue, each in the
      list of what the one before needs. */
  ghost predicate Chain(cat: Catalogue, path: seq<string>) {
    && path != []
    && (forall i :: 0 <= i < |path| ==> path[i] != "" && (path[i] == "*" || path[i] in cat.entries))
    && forall i :: 0 <= i < |path| - 1 ==> path[i] in cat.entries && path[i + 1] in cat.entries[path[i]].needs
  }

  ghost predicate Reaches(cat: Catalogue, keys: set<string>, k: string) {
    exists path :: Chain(cat, path) && path[0] in keys && path[|path| - 1] == k
  }

  lemma {:induction false} ChainStaysInside(cat: Catalogue, path: seq<string>, s: set<string>)
    requires Chain(cat, path) && path[0] in s && Closed(cat, s)
    ensures path[|path| - 1] in s
    decreases |path|
  {
    if |path| == 1 {
    } else {
      assert path[0 + 1] in Needs(cat, path[0]);
      var rest := path[1..];
      forall i | 0 <= i < |rest| - 1
        ensures rest[i + 1] in Needs(cat, rest[i])
      {
        assert path[i + 1 + 1] in Needs(cat, path[i + 1]);
      }
      ChainStaysInside(cat, rest, s);
    }
  }

  lemma ReachesOneMore(cat: Catalogue, keys: set<string>, k: string, r: string)
    requires Reaches(cat, keys, k) && r in Needs(cat, k) && Useful(cat, r)
    ensures Reaches(cat, keys, r)
  {
    var path :| Chain(cat, path) && path[0] in keys && path[|path| - 1] == k;
    var longer := path + [r];
    assert Chain(cat, longer) && longer[0] in keys && longer[|longer| - 1] == r;
  }

  /** The closure is what chains of requirements reach from the keys. */
  lemma ClosureIsReachability(cat: Catalogue, keys: set<string>, k: string)
    ensures k in Closure(cat, keys) <==> Reaches(cat, keys, k)
  {
    ClosureOk(cat, keys);
    if Reaches(cat, keys, k) {
      var path :| Chain(cat, path) && path[0] in keys && path[|path| - 1] == k;
      ChainStaysInside(cat, path, Closure(cat, keys));
    }
    var reached := set x | x in Universe(cat) && Reaches(cat, keys, x);
    forall x | x in keys && Useful(cat, x)
      ensures x in reached
    {
      assert Chain(cat, [x]) && [x][0] in keys && [x][|[x]| - 1] == x;
    }
    forall x, r | x in reached && r in Needs(cat, x) && Useful(cat, r)
      ensures r in reached
    {
      ReachesOneMore(cat, keys, x, r);
    }
    ClosureLeast(cat, keys, reached);
  }

  // ----- Validation

  datatype Normalized =
    | Allowed(permissions: seq<string>)
    | Wildcard
    | Unknown(keys: seq<string>)
    | Forbidden(keys: seq<string>)

  /** The strings of an input, trimmed, without empty ones. */
  function TrimmedKeys(items: seq<Item>): (keys: seq<string>)
    ensures forall i :: 0 <= i < |keys| ==> keys[i] != "" && Trimmed(keys[i])
  {
    if items == [] then []
    else
      var rest := TrimmedKeys(items[1..]);
      if items[0].NotText? || Trim(items[0].s) == "" then rest else [Trim(items[0].s)] + rest
  }

  /** A key is among them exactly when some text of the input is that key with white
      space around it. */
  lemma {:induction false} TrimmedKeysExactly(items: seq<Item>, key: string)
    ensures key in TrimmedKeys(items) <==> key != "" && exists text :: Text(text) in items && key == Trim(text)
  {
    if items == [] {
    } else {
      var rest := items[1..];
      TrimmedKeysExactly(rest, key);
      assert forall text :: Text(text) in items <==> items[0] == Text(text) || Text(text) in rest;
      assert items[0].Text? ==> Text(items[0].s) in items;
    }
  }

  function Deduped(keys: seq<string>): (r: seq<string>)
    ensures NoDuplicates(r) && Elements(r) == Elements(keys)
  {
    if keys == [] then []
    else
      var last := keys[|keys| - 1];
      var rest := Deduped(keys[..|keys| - 1]);
      assert Elements(keys) == Elements(keys[..|keys| - 1]) + {last};
      assert last in rest <==> last in Elements(rest);
      if last in rest then rest else rest + [last]
  }

  function Filter(keys: seq<string>, bad: string -> bool): (r: seq<string>)
    ensures forall k :: k in r <==> k in keys && bad(k)
    ensures NoDuplicates(keys) ==> NoDuplicates(r)
  {
    if keys == [] then []
    else
      var rest := Filter(keys[1..], bad);
      assert NoDuplicates(keys) ==> keys[0] !in rest;
      if bad(keys[0]) then [keys[0]] + rest else rest
  }

  /** What a custom role may list. */
  predicate Acceptable(cat: Catalogue, keys: set<string>, allowOwnerOnly: bool) {
    && "*" !in keys
    && (forall k :: k in keys ==> k in cat.entries)
    && (allowOwnerOnly || forall k :: k in keys ==> !OwnerOnly(cat, k))
  }

  /** Exactly one outcome, each with exactly the offending keys; on success the
      permissions are the closure of the trimmed input. */
  method NormalizePermissions(cat: Catalogue, items: seq<Item>, allowOwnerOnly: bool) returns (r: Normalized)
    ensures var keys := TrimmedKeys(items);
            && (r.Wildcard? <==> "*" in keys)
            && (r.Unknown? <==> "*" !in keys && exists k :: k in keys && k !in cat.entries)
            && (r.Allowed? <==>
                  && "*" !in keys
                  && (forall k :: k in keys ==> k in cat.entries)
                  && (allowOwnerOnly || forall k :: k in keys ==> k !in cat.ownerOnlyKeys && !cat.entries[k].ownerOnly))
            && (r.Forbidden? ==>
                  forall k :: k in r.keys <==>
                    k in keys && k in cat.entries && (k in cat.ownerOnlyKeys || cat.entries[k].ownerOnly))
    ensures var keys := Elements(TrimmedKeys(items));
            match r
            case Allowed(permissions) =>
              && Acceptable(cat, keys, allowOwnerOnly)
              && Elements(permissions) == Closure(cat, keys)
              && NoDuplicates(permissions)
            case Wildcard =>
              "*" in keys
            case Unknown(bad) =>
              && "*" !in keys
              && bad != [] && NoDuplicates(bad)
              && forall k :: k in bad <==> k in keys && k !in cat.entries
            case Forbidden(bad) =>
              && Acceptable(cat, keys, true) && !allowOwnerOnly
              && bad != [] && NoDuplicates(bad)
              && forall k :: k in bad <==> k in keys && OwnerOnly(cat, k)
  {
    var deduped := Deduped(TrimmedKeys(items));
    assert forall k :: k in TrimmedKeys(items) <==> k in Elements(TrimmedKeys(items));
    assert forall k :: k in deduped <==> k in Elements(deduped);
    if "*" in deduped {
      return Wildcard;
    }
    var unknown := Filter(deduped, k => k !in cat.entries);
    if |unknown| > 0 {
      assert unknown[0] in unknown;
      return Unknown(unknown);
    }
    assert Acceptable(cat, Elements(deduped), true);
    if !allowOwnerOnly {
      var forbidden := Filter(deduped, k => OwnerOnly(cat, k));
      if |forbidden| > 0 {
        assert forbidden[0] in forbidden;
        return Forbidden(forbidden);
      }
    }
    var permissions := ExpandDependencies(cat, deduped);
    return Allowed(permissions);
  }

  function AsItems(keys: seq<string>): seq<Item> {
    seq(|keys|, i requires 0 <= i < |keys| => Text(keys[i]))
  }

  /** Keys are written without surrounding space, and no entry needs the wildcard. */
  ghost predicate Tidy(cat: Catalogue) {
    && (forall k :: k in cat.entries ==> k != "" && k != "*" && Trimmed(k))
    && forall k :: k in cat.entries ==> "*" !in cat.entries[k].needs
  }

  /** No entry that anyone may grant needs a key that only the owner may. */
  ghost predicate OwnerOnlyApart(cat: Catalogue) {
    forall k, r :: k in cat.entries && !OwnerOnly(cat, k) && r in cat.entries[k].needs && r in cat.entries ==> !OwnerOnly(cat, r)
  }

  lemma {:induction false} TrimmedKeysFixed(keys: seq<string>)
    requires forall i :: 0 <= i < |keys| ==> keys[i] != "" && Trimmed(keys[i])
    ensures TrimmedKeys(AsItems(keys)) == keys
  {
    if keys == [] {
    } else {
      assert AsItems(keys)[1..] == AsItems(keys[1..]);
      TrimmedKeysFixed(keys[1..]);
    }
  }

  /** Nothing outside the catalogue, and no wildcard, enters by expansion. */
  lemma ClosureStaysInCatalogue(cat: Catalogue, keys: set<string>)
    requires Tidy(cat) && forall k :: k in keys ==> k in cat.entries
    ensures Closure(cat, keys) <= cat.entries.Keys
    ensures keys <= Closure(cat, keys)
  {
  }

  lemma ClosureKeepsOwnerOnlyOut(cat: Catalogue, keys: set<string>)
    requires OwnerOnlyApart(cat) && Acceptable(cat, keys, false) && Tidy(cat)
    ensures forall k :: k in Closure(cat, keys) ==> !OwnerOnly(cat, k)
  {
    var free := set k | k in cat.entries && !OwnerOnly(cat, k);
    ClosureLeast(cat, keys, free);
  }

  /** A normalised list, in whatever order it is stored, normalises to itself. */
  lemma RenormalizesToItself(cat: Catalogue, keys: set<string>, allowOwnerOnly: bool, permissions: seq<string>)
    requires Tidy(cat) && (allowOwnerOnly || OwnerOnlyApart(cat))
    requires Acceptable(cat, keys, allowOwnerOnly) && Elements(permissions) == Closure(cat, keys)
    ensures var again := Elements(TrimmedKeys(AsItems(permissions)));
            Acceptable(cat, again, allowOwnerOnly) && Closure(cat, again) == Elements(permissions)
    ensures keys <= Elements(permissions)
  {
    ClosureStaysInCatalogue(cat, keys);
    forall i | 0 <= i < |permissions|
      ensures permissions[i] != "" && Trimmed(permissions[i])
    {
      assert permissions[i] in Elements(permissions);
    }
    TrimmedKeysFixed(permissions);
    ClosureIdempotent(cat, keys);
    if !allowOwnerOnly {
      ClosureKeepsOwnerOnlyOut(cat, keys);
    }
  }

  /** Validation keeps owner-only keys out of every accepted role exactly when no
      freely grantable entry needs one. */
  lemma OwnerOnlyNeverLeaksExactly(cat: Catalogue)
    requires Tidy(cat)
    ensures (forall keys: set<string>, k :: Acceptable(cat, keys, false) && k in Closure(cat, keys) ==> !OwnerOnly(cat, k))
            <==> OwnerOnlyApart(cat)
  {
    if OwnerOnlyApart(cat) {
      forall keys: set<string>, k | Acceptable(cat, keys, false) && k in Closure(cat, keys)
        ensures !OwnerOnly(cat, k)
      {
        ClosureKeepsOwnerOnlyOut(cat, keys);
      }
    } else {
      var k, r :| k in cat.entries && !OwnerOnly(cat, k) && r in cat.entries[k].needs && r in cat.entries && OwnerOnly(cat, r);
      ClosureOk(cat, {k});
      assert Acceptable(cat, {k}, false);
      assert k in Closure(cat, {k}) && r in Needs(cat, k) && Useful(cat, r);
    }
  }
}
