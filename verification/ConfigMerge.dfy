/** Overriding the configuration tree from environment variables
    (00_Base/src/config/defineOcpiConfig.ts). */
module ConfigMerge {
  import opened Wrappers
  import opened Text

  // ---------- The key map of a schema ----------

  datatype Schema =
    | Effects(inner: Schema)
    | Nullable(inner: Schema)
    | Optional(inner: Schema)
    | Default(inner: Schema)
    | Array(element: Schema)
    | Object(shape: seq<(string, Schema)>)
    | Scalar

  /** A leaf holds the schema's own name for it. */
  datatype KeyMap = Name(key: string) | Nested(entries: Keys)

  type Keys = seq<(string, KeyMap)>

  function SetKey(keys: Keys, key: string, value: KeyMap): Keys {
    if keys == [] then [(key, value)]
    else if keys[0].0 == key then [(key, value)] + keys[1..]
    else [keys[0]] + SetKey(keys[1..], key, value)
  }

  /** Looks through effects, nullable, optional and array, but not through defaults. A nested object
      is filed under its key, a leaf under its key in lower case. */
  function GetZodSchemaKeyMap(schema: Schema): Keys
    decreases schema, if schema.Object? then |schema.shape| + 1 else 0
  {
    match schema
    case Effects(inner) => GetZodSchemaKeyMap(inner)
    case Nullable(inner) => GetZodSchemaKeyMap(inner)
    case Optional(inner) => GetZodSchemaKeyMap(inner)
    case Array(element) => GetZodSchemaKeyMap(element)
    case Object(shape) => ReduceShape(schema, |shape|)
    case Default(_) => []
    case Scalar => []
  }

  function ReduceShape(schema: Schema, n: nat): Keys
    requires schema.Object? && n <= |schema.shape|
    decreases schema, n
  {
    if n == 0 then []
    else
      var (key, value) := schema.shape[n - 1];
      var nested := GetZodSchemaKeyMap(value);
      if nested != [] then SetKey(ReduceShape(schema, n - 1), key, Nested(nested))
      else SetKey(ReduceShape(schema, n - 1), Lower(key), Name(key))
  }

  // ---------- Walking the key map ----------

  /** Position `i` holds the first key that equals the target up to case. */
  ghost predicate FirstMatch(keys: Keys, target: string, i: nat) {
    && i < |keys| && Lower(keys[i].0) == Lower(target)
    && forall j :: 0 <= j < i ==> Lower(keys[j].0) != Lower(target)
  }

  /** The first key that equals the target up to case, if there is one. */
  function FindCaseInsensitiveMatch(keys: Keys, target: string): (r: Option<string>)
    ensures r.Some? ==> Lower(r.value) == Lower(target)
    ensures r.Some? ==> exists i: nat :: FirstMatch(keys, target, i) && keys[i].0 == r.value
    ensures r.None? ==> forall i :: 0 <= i < |keys| ==> Lower(keys[i].0) != Lower(target)
  {
    if keys == [] then None
    else if Lower(keys[0].0) == Lower(target) then
      assert FirstMatch(keys, target, 0);
      Some(keys[0].0)
    else
      var r := FindCaseInsensitiveMatch(keys[1..], target);
      assert r.Some? ==> exists i: nat :: FirstMatch(keys, target, i) && keys[i].0 == r.value by {
        if r.Some? {
          var i: nat :| FirstMatch(keys[1..], target, i) && keys[1..][i].0 == r.value;
          assert FirstMatch(keys, target, i + 1);
        }
      }
      r
  }

  /** An empty key counts as no key. */
  function Match(keys: Keys, target: string): (r: Option<string>)
    ensures r.Some? ==> Lower(r.value) == Lower(target)
  {
    var r := FindCaseInsensitiveMatch(keys, target);
    if r == Some("") then None else r
  }

  function Lookup(keys: Keys, key: string): Option<KeyMap> {
    if keys == [] then None else if keys[0].0 == key then Some(keys[0].1) else Lookup(keys[1..], key)
  }

  /** The keys one level down; below a leaf there are none. */
  function Below(keys: Keys, key: string): Keys {
    match Lookup(keys, key)
    case Some(Nested(entries)) => entries
    case Some(Name(_)) => []
    case None => []
  }

  /** The first part of a path that the key map does not know. */
  function UnknownPart(keys: Keys, path: seq<string>): (r: Option<nat>)
    ensures r.Some? ==> r.value < |path|
    decreases |path|
  {
    if path == [] then None
    else
      var key := Match(keys, path[0]);
      if key.None? then Some(0)
      else
        var rest := UnknownPart(Below(keys, key.value), path[1..]);
        if rest.Some? then Some(rest.value + 1) else None
  }

  /** The keys a path stands for, as far as the key map knows it. */
  function Matched(keys: Keys, path: seq<string>): (r: seq<string>)
    ensures |r| <= |path|
    ensures UnknownPart(keys, path).None? ==> |r| == |path|
    decreases |path|
  {
    if path == [] then []
    else
      var key := Match(keys, path[0]);
      if key.None? then [] else [key.value] + Matched(Below(keys, key.value), path[1..])
  }

  // ---------- The configuration tree ----------

  datatype Scalar = Null | Boolean(b: bool) | Number(n: real) | Str(s: string)

  /** An array is an object whose keys are its indices. */
  datatype Tree = Leaf(value: Scalar) | Obj(fields: map<string, Tree>)

  predicate Truthy(t: Tree) {
    match t
    case Obj(_) => true
    case Leaf(Null) => false
    case Leaf(Boolean(b)) => b
    case Leaf(Number(n)) => n != 0.0
    case Leaf(Str(s)) => s != ""
  }

  function Get(t: Tree, q: seq<string>): Option<Tree> {
    if q == [] then Some(t)
    else if t.Obj? && q[0] in t.fields then Get(t.fields[q[0]], q[1..])
    else None
  }

  /** What is there, or the empty object put in place of nothing or a falsy value. */
  function ChildOf(fields: map<string, Tree>, key: string): Tree {
    if key in fields && Truthy(fields[key]) then fields[key] else Obj(map[])
  }

  /** The tree after one environment variable; `None` when writing below a truthy primitive throws.
      Objects are put along the path even if a later part of it is unknown. */
  function Apply(t: Tree, keys: Keys, path: seq<string>, value: Tree): Option<Tree>
    requires path != []
    decreases |path|
  {
    var key := Match(keys, path[0]);
    if key.None? then Some(t)
    else if t.Leaf? then None
    else if |path| == 1 then Some(Obj(t.fields[key.value := value]))
    else
      var child := Apply(ChildOf(t.fields, key.value), Below(keys, key.value), path[1..], value);
      if child.None? then None else Some(Obj(t.fields[key.value := child.value]))
  }

  // ---------- Where a write is seen ----------

  /** `q` leaves the keys of the path at some position. */
  predicate Diverges(keys: Keys, path: seq<string>, q: seq<string>)
    requires path != []
    decreases |path|
  {
    q != [] &&
    var key := Match(keys, path[0]);
    key.None? || key.value != q[0] || (|path| > 1 && Diverges(Below(keys, key.value), path[1..], q[1..]))
  }

  /** A write changes nothing off its path. */
  lemma {:induction false} WriteFrame(t: Tree, keys: Keys, path: seq<string>, value: Tree, q: seq<string>)
    requires path != [] && Apply(t, keys, path, value).Some? && Diverges(keys, path, q)
    ensures Get(Apply(t, keys, path, value).value, q) == Get(t, q)
    decreases |path|
  {
    var key := Match(keys, path[0]);
    if key.Some? && key.value == q[0] {
      var child := ChildOf(t.fields, key.value);
      WriteFrame(child, Below(keys, key.value), path[1..], value, q[1..]);
    }
  }

  /** A known path's value is found under the keys the path stands for. */
  lemma {:induction false} WriteSeen(t: Tree, keys: Keys, path: seq<string>, value: Tree)
    requires path != [] && Apply(t, keys, path, value).Some? && UnknownPart(keys, path).None?
    ensures Get(Apply(t, keys, path, value).value, Matched(keys, path)) == Some(value)
    decreases |path|
  {
    var key := Match(keys, path[0]);
    assert Matched(keys, path)[1..] == Matched(Below(keys, key.value), path[1..]);
    if |path| > 1 {
      WriteSeen(ChildOf(t.fields, key.value), Below(keys, key.value), path[1..], value);
    }
  }

  function Fold(path: seq<string>): (r: seq<string>)
    ensures |r| == |path|
  {
    seq(|path|, i requires 0 <= i < |path| => Lower(path[i]))
  }

  /** Neither is a prefix of the other, up to case. */
  predicate Apart(p: seq<string>, q: seq<string>) {
    !(Fold(p) <= Fold(q)) && !(Fold(q) <= Fold(p))
  }

  lemma ApartStep(p: seq<string>, q: seq<string>)
    requires Apart(p, q)
    ensures p != [] && q != []
    ensures Lower(p[0]) == Lower(q[0]) ==> |p| > 1 && |q| > 1 && Apart(p[1..], q[1..])
  {
    if p != [] && q != [] {
      assert Fold(p) == [Lower(p[0])] + Fold(p[1..]);
      assert Fold(q) == [Lower(q[0])] + Fold(q[1..]);
    }
  }

  lemma {:induction false} ApartDiverges(keys: Keys, path: seq<string>, q: seq<string>)
    requires Apart(path, q)
    ensures path != [] && Diverges(keys, path, q)
    decreases |path|
  {
    ApartStep(path, q);
    var key := Match(keys, path[0]);
    if key.Some? && key.value == q[0] {
      ApartDiverges(Below(keys, key.value), path[1..], q[1..]);
    }
  }

  // ---------- Two writes commute ----------

  function Then(t: Option<Tree>, keys: Keys, path: seq<string>, value: Tree): Option<Tree>
    requires path != []
  {
    if t.Some? then Apply(t.value, keys, path, value) else None
  }

  /** A write below a key leaves something truthy there. */
  lemma ApplyKeepsTruthy(t: Tree, keys: Keys, path: seq<string>, value: Tree)
    requires path != [] && Truthy(t) && Apply(t, keys, path, value).Some?
    ensures Truthy(Apply(t, keys, path, value).value)
  {
  }

  lemma {:induction false} WritesCommute(t: Tree, keys: Keys, p: seq<string>, v: Tree, q: seq<string>, w: Tree)
    requires Apart(p, q)
    ensures p != [] && q != []
    ensures Then(Apply(t, keys, p, v), keys, q, w) == Then(Apply(t, keys, q, w), keys, p, v)
    decreases |p|
  {
    ApartStep(p, q);
    var kp, kq := Match(keys, p[0]), Match(keys, q[0]);
    hide Match, Below, ChildOf, Apart;
    if kp.None? || kq.None? || t.Leaf? {
    } else if kp == kq {
      var key := kp.value;
      var child, below := ChildOf(t.fields, key), Below(keys, key);
      WritesCommute(child, below, p[1..], v, q[1..], w);
      BelowSameKey(t.fields, keys, key, p, v, q, w);
      BelowSameKey(t.fields, keys, key, q, w, p, v);
    } else {
      var first, second := Apply(t, keys, p, v), Apply(t, keys, q, w);
      if first.Some? && second.Some? {
        var x, y := first.value.fields[kp.value], second.value.fields[kq.value];
        assert t.fields[kp.value := x][kq.value := y] == t.fields[kq.value := y][kp.value := x];
      }
      OtherKey(t.fields, keys, kp.value, p, v, kq.value, q, w);
      OtherKey(t.fields, keys, kq.value, q, w, kp.value, p, v);
    }
  }

  /** Two writes below one key are two writes to the child. */
  lemma BelowSameKey(fields: map<string, Tree>, keys: Keys, key: string, p: seq<string>, v: Tree, q: seq<string>,
                     w: Tree)
    requires |p| > 1 && |q| > 1 && Match(keys, p[0]) == Some(key) == Match(keys, q[0])
    ensures
      var both := Then(Apply(ChildOf(fields, key), Below(keys, key), p[1..], v), Below(keys, key), q[1..], w);
      Then(Apply(Obj(fields), keys, p, v), keys, q, w)
        == if both.Some? then Some(Obj(fields[key := both.value])) else None
  {
    var first := Apply(ChildOf(fields, key), Below(keys, key), p[1..], v);
    if first.Some? {
      ApplyKeepsTruthy(ChildOf(fields, key), Below(keys, key), p[1..], v);
      var fields' := fields[key := first.value];
      assert ChildOf(fields', key) == first.value;
      var second := Apply(first.value, Below(keys, key), q[1..], w);
      if second.Some? {
        assert fields'[key := second.value] == fields[key := second.value];
      }
    }
  }

  /** What a write puts under its key does not depend on the other key. */
  lemma OtherKey(fields: map<string, Tree>, keys: Keys, a: string, p: seq<string>, v: Tree, b: string, q: seq<string>,
                 w: Tree)
    requires p != [] && q != [] && a != b && Match(keys, p[0]) == Some(a) && Match(keys, q[0]) == Some(b)
    ensures
      var first, second := Apply(Obj(fields), keys, p, v), Apply(Obj(fields), keys, q, w);
      Then(first, keys, q, w) ==
        if first.Some? && second.Some? then Some(Obj(fields[a := first.value.fields[a]][b := second.value.fields[b]]))
          else None
  {
    var first := Apply(Obj(fields), keys, p, v);
    if first.Some? {
      assert ChildOf(first.value.fields, b) == ChildOf(fields, b);
    }
  }

  // ---------- All environment variables ----------

  datatype EnvVar = EnvVar(key: string, value: string)

  /** The variables' prefix, the key map, and how a value's text is read. */
  datatype Setup = Setup(prefix: string, keys: Keys, parse: string -> Tree)

  /** The path of a variable that is not empty and carries the prefix. */
  function PathOf(s: Setup, e: EnvVar): (path: Option<seq<string>>)
    ensures path.Some? ==> path.value != []
  {
    var key := Lower(e.key);
    if e.value != "" && s.prefix <= key then Some(Split(key[|s.prefix|..], "_")) else None
  }

  function Step(t: Option<Tree>, s: Setup, e: EnvVar): Option<Tree> {
    var path := PathOf(s, e);
    if path.Some? then Then(t, s.keys, path.value, s.parse(e.value)) else t
  }

  function Merge(t: Option<Tree>, s: Setup, envs: seq<EnvVar>): Option<Tree> {
    if envs == [] then t else Step(Merge(t, s, envs[..|envs| - 1]), s, envs[|envs| - 1])
  }

  datatype KeyError = InvalidPart(envKey: string, part: string) | InvalidFinalPart(envKey: string, part: string)

  function PathErrors(keys: Keys, envKey: string, path: seq<string>): seq<KeyError> {
    var unknown := UnknownPart(keys, path);
    if unknown.None? then []
    else if unknown.value + 1 < |path| then [InvalidPart(envKey, path[unknown.value])]
    else [InvalidFinalPart(envKey, path[unknown.value])]
  }

  function ErrorOf(s: Setup, e: EnvVar): seq<KeyError> {
    var path := PathOf(s, e);
    if path.None? then [] else PathErrors(s.keys, e.key, path.value)
  }

  function Errors(s: Setup, envs: seq<EnvVar>): seq<KeyError> {
    if envs == [] then [] else Errors(s, envs[..|envs| - 1]) + ErrorOf(s, envs[|envs| - 1])
  }

  predicate Separate(s: Setup, e: EnvVar, f: EnvVar) {
    PathOf(s, e).Some? && PathOf(s, f).Some? ==> Apart(PathOf(s, e).value, PathOf(s, f).value)
  }

  ghost predicate PairwiseSeparate(s: Setup, envs: seq<EnvVar>) {
    forall i, j :: 0 <= i < j < |envs| ==> Separate(s, envs[i], envs[j])
  }

  lemma StepsCommute(t: Option<Tree>, s: Setup, e: EnvVar, f: EnvVar)
    requires Separate(s, e, f)
    ensures Step(Step(t, s, e), s, f) == Step(Step(t, s, f), s, e)
  {
    if PathOf(s, e).Some? && PathOf(s, f).Some? && t.Some? {
      WritesCommute(t.value, s.keys, PathOf(s, e).value, s.parse(e.value), PathOf(s, f).value, s.parse(f.value));
    }
  }

  lemma MergeLast(t: Option<Tree>, s: Setup, envs: seq<EnvVar>, e: EnvVar)
    ensures Merge(t, s, envs + [e]) == Step(Merge(t, s, envs), s, e)
    ensures Errors(s, envs + [e]) == Errors(s, envs) + ErrorOf(s, e)
  {
    assert (envs + [e])[..|envs|] == envs;
  }

  /** A variable can be applied after the ones that follow it. */
  lemma {:induction false} MoveToEnd(t: Option<Tree>, s: Setup, a: seq<EnvVar>, e: EnvVar, b: seq<EnvVar>)
    requires forall f :: f in b ==> Separate(s, e, f)
    ensures Merge(t, s, a + [e] + b) == Merge(t, s, a + b + [e])
  {
    hide *;
    if b == [] {
      assert a + [e] + b == a + b + [e];
    } else {
      var b', x := b[..|b| - 1], b[|b| - 1];
      MoveToEnd(t, s, a, e, b');
      assert a + [e] + b == (a + [e] + b') + [x] && a + b == (a + b') + [x];
      MergeLast(t, s, a + [e] + b', x);
      MergeLast(t, s, a + b', x);
      MergeLast(t, s, a + b', e);
      MergeLast(t, s, a + b, e);
      StepsCommute(Merge(t, s, a + b'), s, e, x);
    }
  }

  lemma {:induction false} ErrorsMoveToEnd(s: Setup, a: seq<EnvVar>, e: EnvVar, b: seq<EnvVar>)
    ensures multiset(Errors(s, a + [e] + b)) == multiset(Errors(s, a + b + [e]))
  {
    hide *;
    if b == [] {
      assert a + [e] + b == a + b + [e];
    } else {
      var b', x := b[..|b| - 1], b[|b| - 1];
      ErrorsMoveToEnd(s, a, e, b');
      assert a + [e] + b == (a + [e] + b') + [x] && a + b == (a + b') + [x];
      MergeLast(None, s, a + [e] + b', x);
      MergeLast(None, s, a + b', x);
      MergeLast(None, s, a + b', e);
      MergeLast(None, s, a + b, e);
    }
  }

  lemma SameRest<T>(a: seq<T>, e: T, b: seq<T>, rest: seq<T>)
    requires multiset(a + [e] + b) == multiset(rest + [e])
    ensures multiset(a + b) == multiset(rest)
  {
    assert multiset(a + [e] + b) == multiset(a) + multiset{e} + multiset(b);
    assert multiset(a + b) == multiset(a + [e] + b) - multiset{e};
    assert multiset(rest) == multiset(rest + [e]) - multiset{e};
  }

  lemma SeparateWithout(s: Setup, a: seq<EnvVar>, e: EnvVar, b: seq<EnvVar>)
    requires PairwiseSeparate(s, a + [e] + b)
    ensures forall f :: f in b ==> Separate(s, e, f)
    ensures PairwiseSeparate(s, a + b)
  {
    hide Separate;
    var xs := a + [e] + b;
    forall j | 0 <= j < |b| ensures Separate(s, e, b[j]) {
      assert xs[|a|] == e && xs[|a| + 1 + j] == b[j];
    }
    forall j, k | 0 <= j < k < |a + b| ensures Separate(s, (a + b)[j], (a + b)[k]) {
      assert (a + b)[j] == xs[if j < |a| then j else j + 1];
      assert (a + b)[k] == xs[if k < |a| then k else k + 1];
    }
  }

  /** Any order of variables whose paths are pairwise apart gives the same tree, throws alike, and
      reports the same errors. */
  lemma {:induction false} OrderIrrelevant(t: Option<Tree>, s: Setup, xs: seq<EnvVar>, ys: seq<EnvVar>)
    requires multiset(xs) == multiset(ys) && PairwiseSeparate(s, xs)
    ensures Merge(t, s, xs) == Merge(t, s, ys)
    ensures multiset(Errors(s, xs)) == multiset(Errors(s, ys))
    decreases |ys|
  {
    hide Step, ErrorOf, Separate;
    if ys == [] {
      assert |multiset(xs)| == |xs|;
    } else {
      var n := |ys| - 1;
      var e := ys[n];
      assert ys == ys[..n] + [e];
      assert e in multiset(xs);
      var i :| 0 <= i < |xs| && xs[i] == e;
      var a, b := xs[..i], xs[i + 1..];
      assert xs == a + [e] + b;
      SameRest(a, e, b, ys[..n]);
      SeparateWithout(s, a, e, b);
      MoveToEnd(t, s, a, e, b);
      ErrorsMoveToEnd(s, a, e, b);
      OrderIrrelevant(t, s, a + b, ys[..n]);
      MergeLast(t, s, a + b, e);
      MergeLast(t, s, ys[..n], e);
    }
  }

  /** The tree differs from the default only along the variables' paths. */
  lemma {:induction false} MergeFrame(t: Tree, s: Setup, envs: seq<EnvVar>, q: seq<string>)
    requires Merge(Some(t), s, envs).Some?
    requires forall e :: e in envs && PathOf(s, e).Some? ==> Apart(PathOf(s, e).value, q)
    ensures Get(Merge(Some(t), s, envs).value, q) == Get(t, q)
  {
    if envs != [] {
      var n := |envs| - 1;
      MergeFrame(t, s, envs[..n], q);
      var path := PathOf(s, envs[n]);
      if path.Some? {
        ApartDiverges(s.keys, path.value, q);
        WriteFrame(Merge(Some(t), s, envs[..n]).value, s.keys, path.value, s.parse(envs[n].value), q);
      }
    }
  }

  /** Every variable with a known path is seen in the tree. */
  lemma MergeSeen(t: Tree, s: Setup, envs: seq<EnvVar>, i: nat)
    requires i < |envs| && PairwiseSeparate(s, envs) && Merge(Some(t), s, envs).Some?
    requires PathOf(s, envs[i]).Some? && UnknownPart(s.keys, PathOf(s, envs[i]).value).None?
    ensures Get(Merge(Some(t), s, envs).value, Matched(s.keys, PathOf(s, envs[i]).value))
            == Some(s.parse(envs[i].value))
  {
    var a, e, b := envs[..i], envs[i], envs[i + 1..];
    assert envs == a + [e] + b;
    SeparateWithout(s, a, e, b);
    hide *;
    MoveToEnd(Some(t), s, a, e, b);
    MergeLast(Some(t), s, a + b, e);
    WriteSeen(Merge(Some(t), s, a + b).value, s.keys, PathOf(s, e).value, s.parse(e.value));
  }

  /** After `k` keys the walk stands on a primitive, and not on one that a child replaces. */
  predicate Blocks(t: Tree, m: seq<string>, k: nat)
    requires k < |m|
  {
    var at := Get(t, m[..k]);
    at.Some? && at.value.Leaf? && (k == 0 || at.value.value !in {Null, Boolean(false), Number(0.0), Str("")})
  }

  lemma BlocksBelow(fields: map<string, Tree>, m: seq<string>, k: nat)
    requires k + 1 < |m|
    ensures Blocks(ChildOf(fields, m[0]), m[1..], k) <==> Blocks(Obj(fields), m, k + 1)
  {
    var q := m[1..][..k];
    assert m[..k + 1][1..] == q && m[..k + 1][0] == m[0];
    assert Get(Obj(fields), m[..k + 1]) == if m[0] in fields then Get(fields[m[0]], q) else None;
    if k > 0 {
      assert Get(Obj(map[]), q).None?;
    } else {
      assert q == [];
    }
  }

  predicate Blocked(t: Tree, m: seq<string>) {
    exists k :: 0 <= k < |m| && Blocks(t, m, k)
  }

  lemma BlockedBelow(fields: map<string, Tree>, m: seq<string>)
    requires m != []
    ensures Blocked(ChildOf(fields, m[0]), m[1..]) <==> Blocked(Obj(fields), m)
  {
    assert !Blocks(Obj(fields), m, 0);
    forall k: nat | k + 1 < |m| ensures Blocks(ChildOf(fields, m[0]), m[1..], k) <==> Blocks(Obj(fields), m, k + 1) {
      BlocksBelow(fields, m, k);
    }
    hide ChildOf, Blocks;
    if Blocked(Obj(fields), m) {
      var k :| 0 <= k < |m| && Blocks(Obj(fields), m, k);
      assert Blocks(ChildOf(fields, m[0]), m[1..], k - 1);
    }
    if Blocked(ChildOf(fields, m[0]), m[1..]) {
      var k :| 0 <= k < |m[1..]| && Blocks(ChildOf(fields, m[0]), m[1..], k);
      assert Blocks(Obj(fields), m, k + 1);
    }
  }

  /** A write throws exactly when it would go below a truthy primitive, or the root is one. */
  lemma {:induction false} ThrowsIffPrimitive(t: Tree, keys: Keys, path: seq<string>, value: Tree)
    requires path != []
    ensures Apply(t, keys, path, value).None? <==> Blocked(t, Matched(keys, path))
    decreases |path|
  {
    var key, m := Match(keys, path[0]), Matched(keys, path);
    if key.Some? && t.Leaf? {
      assert Blocks(t, m, 0);
    } else if key.Some? {
      assert m[1..] == Matched(Below(keys, key.value), path[1..]);
      BlockedBelow(t.fields, m);
      if |path| > 1 {
        ThrowsIffPrimitive(ChildOf(t.fields, key.value), Below(keys, key.value), path[1..], value);
      }
    }
  }

  // ---------- The loops ----------

  function Put(t: Tree, q: seq<string>, v: Tree): Tree
    requires Get(t, q).Some?
  {
    if q == [] then v else Obj(t.fields[q[0] := Put(t.fields[q[0]], q[1..], v)])
  }

  lemma {:induction false} PutGet(t: Tree, q: seq<string>, v: Tree)
    requires Get(t, q).Some?
    ensures Get(Put(t, q, v), q) == Some(v)
    ensures Put(t, q, Get(t, q).value) == t
    ensures forall w :: Put(Put(t, q, v), q, w) == Put(t, q, w)
  {
    if q != [] {
      PutGet(t.fields[q[0]], q[1..], v);
      assert t.fields[q[0] := t.fields[q[0]]] == t.fields;
      var t' := Put(t, q, v);
      forall w ensures Put(t', q, w) == Put(t, q, w) {
        assert t'.fields[q[0] := Put(t'.fields[q[0]], q[1..], w)] == t.fields[q[0] := Put(t.fields[q[0]], q[1..], w)];
      }
    }
  }

  lemma {:induction false} PutBelow(t: Tree, q: seq<string>, key: string)
    requires Get(t, q).Some? && Get(t, q).value.Obj? && key in Get(t, q).value.fields
    ensures Get(t, q + [key]) == Some(Get(t, q).value.fields[key])
    ensures forall w :: Put(t, q + [key], w) == Put(t, q, Obj(Get(t, q).value.fields[key := w]))
  {
    if q != [] {
      PutBelow(t.fields[q[0]], q[1..], key);
      assert (q + [key])[1..] == q[1..] + [key];
    } else {
      assert (q + [key])[1..] == [];
    }
  }

  function Graft(t: Tree, q: seq<string>, v: Option<Tree>): Option<Tree>
    requires Get(t, q).Some?
  {
    if v.Some? then Some(Put(t, q, v.value)) else None
  }

  function Shifted(unknown: Option<nat>, n: nat): Option<nat> {
    if unknown.Some? then Some(unknown.value + n) else None
  }

  /** One step down the path, after putting an object there if need be, keeps what the write gives. */
  lemma WalkStep(t: Tree, q: seq<string>, fields: map<string, Tree>, keys: Keys, path: seq<string>, value: Tree)
    requires |path| > 1 && Get(t, q) == Some(Obj(fields)) && Match(keys, path[0]).Some?
    ensures
      var key := Match(keys, path[0]).value;
      var t' := if key in fields && Truthy(fields[key]) then t else Put(t, q, Obj(fields[key := Obj(map[])]));
      && Get(t', q + [key]) == Some(ChildOf(fields, key))
      && Graft(t, q, Apply(Obj(fields), keys, path, value))
        == Graft(t', q + [key], Apply(ChildOf(fields, key), Below(keys, key), path[1..], value))
  {
    var key := Match(keys, path[0]).value;
    var fields' := fields[key := ChildOf(fields, key)];
    var t' := if key in fields && Truthy(fields[key]) then t else Put(t, q, Obj(fields[key := Obj(map[])]));
    PutGet(t, q, Obj(fields'));
    assert key in fields && Truthy(fields[key]) ==> fields' == fields;
    PutBelow(t', q, key);
    var child := Apply(ChildOf(fields, key), Below(keys, key), path[1..], value);
    if child.Some? {
      assert fields'[key := child.value] == fields[key := child.value];
    }
  }

  /** The inner loop: walks the path, putting objects where there is nothing, and writes at its end. */
  method ApplyEnvVar(t: Tree, keys: Keys, envKey: string, path: seq<string>, value: Tree)
    returns (r: Option<Tree>, errors: seq<KeyError>)
    requires path != []
    ensures r == Apply(t, keys, path, value)
    ensures r.Some? ==> errors == PathErrors(keys, envKey, path)
  {
    hide Match, Below;
    var config, walked, currentKeys := t, [], keys;
    for i := 0 to |path| - 1
      invariant Get(config, walked).Some?
      invariant Apply(t, keys, path, value)
        == Graft(config, walked, Apply(Get(config, walked).value, currentKeys, path[i..], value))
      invariant UnknownPart(keys, path) == Shifted(UnknownPart(currentKeys, path[i..]), i)
    {
      var part := Get(config, walked).value;
      var key := Match(currentKeys, path[i]);
      PutGet(config, walked, part);
      assert path[i..][1..] == path[i + 1..];
      if key.None? {
        return Some(config), [InvalidPart(envKey, path[i])];
      }
      if part.Leaf? {
        return None, [];
      }
      WalkStep(config, walked, part.fields, currentKeys, path[i..], value);
      if !(key.value in part.fields && Truthy(part.fields[key.value])) {
        config := Put(config, walked, Obj(part.fields[key.value := Obj(map[])]));
      }
      walked, currentKeys := walked + [key.value], Below(currentKeys, key.value);
    }
    var finalPart := path[|path| - 1];
    assert path[|path| - 1..] == [finalPart];
    var part := Get(config, walked).value;
    var finalKey := Match(currentKeys, finalPart);
    PutGet(config, walked, part);
    if finalKey.None? {
      return Some(config), [InvalidFinalPart(envKey, finalPart)];
    }
    if part.Leaf? {
      return None, [];
    }
    r, errors := Some(Put(config, walked, Obj(part.fields[finalKey.value := value]))), [];
  }

  /** The whole merge. A write that throws ends it. */
  method MergeOcpiConfigFromEnvVars(s: Setup, defaultConfig: Tree, envVars: seq<EnvVar>)
    returns (r: Option<Tree>, errors: seq<KeyError>)
    ensures r == Merge(Some(defaultConfig), s, envVars)
    ensures r.Some? ==> errors == Errors(s, envVars)
  {
    var config := defaultConfig;
    errors := [];
    for i := 0 to |envVars|
      invariant Merge(Some(defaultConfig), s, envVars[..i]) == Some(config)
      invariant errors == Errors(s, envVars[..i])
    {
      assert envVars[..i + 1] == envVars[..i] + [envVars[i]];
      MergeLast(Some(defaultConfig), s, envVars[..i], envVars[i]);
      var path := PathOf(s, envVars[i]);
      if path.Some? {
        var merged, found := ApplyEnvVar(config, s.keys, envVars[i].key, path.value, s.parse(envVars[i].value));
        if merged.None? {
          ThrownStays(defaultConfig, s, envVars, i + 1);
          return None, errors;
        }
        config, errors := merged.value, errors + found;
      }
    }
    assert envVars[..|envVars|] == envVars;
    r := Some(config);
  }

  lemma {:induction false} ThrownStays(t: Tree, s: Setup, envs: seq<EnvVar>, i: nat)
    requires i <= |envs| && Merge(Some(t), s, envs[..i]).None?
    ensures Merge(Some(t), s, envs).None?
  {
    if i < |envs| {
      assert envs[..|envs| - 1][..i] == envs[..i];
      ThrownStays(t, s, envs[..|envs| - 1], i);
    } else {
      assert envs[..i] == envs;
    }
  }

  // ---------- Which schema keys a variable can reach ----------

  ghost predicate NoCaseClash(shape: seq<(string, Schema)>) {
    && (forall i :: 0 <= i < |shape| ==> shape[i].0 != "")
    && (forall i, j :: 0 <= i < j < |shape| ==> Lower(shape[i].0) != Lower(shape[j].0))
  }

  function EntryFor(key: string, value: Schema): (string, KeyMap) {
    var nested := GetZodSchemaKeyMap(value);
    if nested != [] then (key, Nested(nested)) else (Lower(key), Name(key))
  }

  lemma {:induction false} SetKeyAppends(keys: Keys, key: string, value: KeyMap)
    requires forall i :: 0 <= i < |keys| ==> keys[i].0 != key
    ensures SetKey(keys, key, value) == keys + [(key, value)]
  {
    if keys != [] {
      SetKeyAppends(keys[1..], key, value);
    }
  }

  lemma ReducedStep(schema: Schema, n: nat)
    requires schema.Object? && 0 < n <= |schema.shape|
    ensures
      var entry := EntryFor(schema.shape[n - 1].0, schema.shape[n - 1].1);
      ReduceShape(schema, n) == SetKey(ReduceShape(schema, n - 1), entry.0, entry.1)
  {
    hide SetKey, Lower;
  }

  lemma EntryKey(key: string, value: Schema)
    ensures Lower(EntryFor(key, value).0) == Lower(key)
  {
    LowerIdempotent(key);
    hide Lower, GetZodSchemaKeyMap;
  }

  /** The entry at a position is the one of the shape's key there, equal to it up to case. */
  ghost predicate EntryAt(schema: Schema, keys: Keys, i: nat)
    requires schema.Object? && i < |schema.shape| && i < |keys|
  {
    keys[i] == EntryFor(schema.shape[i].0, schema.shape[i].1) && Lower(keys[i].0) == Lower(schema.shape[i].0)
  }

  lemma {:induction false} ReducedShape(schema: Schema, n: nat)
    requires schema.Object? && n <= |schema.shape| && NoCaseClash(schema.shape)
    ensures |ReduceShape(schema, n)| == n
    ensures forall i :: 0 <= i < n ==> EntryAt(schema, ReduceShape(schema, n), i)
  {
    if n > 0 {
      var before := ReduceShape(schema, n - 1);
      ReducedShape(schema, n - 1);
      ReducedStep(schema, n);
      ReducedAppends(schema, before, n);
    }
  }

  /** The next key, equal to none before it, is appended. */
  lemma ReducedAppends(schema: Schema, before: Keys, n: nat)
    requires schema.Object? && 0 < n <= |schema.shape| && NoCaseClash(schema.shape) && |before| == n - 1
    requires forall i :: 0 <= i < n - 1 ==> EntryAt(schema, before, i)
    ensures
      var entry := EntryFor(schema.shape[n - 1].0, schema.shape[n - 1].1);
      var keys := SetKey(before, entry.0, entry.1);
      |keys| == n && forall i :: 0 <= i < n ==> EntryAt(schema, keys, i)
  {
    var (key, value) := schema.shape[n - 1];
    EntryKey(key, value);
    hide EntryFor, SetKey, Lower;
    var entry := EntryFor(key, value);
    forall i | 0 <= i < n - 1 ensures before[i].0 != entry.0 {
      assert EntryAt(schema, before, i) && Lower(schema.shape[i].0) != Lower(key);
    }
    SetKeyAppends(before, entry.0, entry.1);
    var keys := before + [entry];
    forall i | 0 <= i < n ensures EntryAt(schema, keys, i) {
      assert i < n - 1 ==> EntryAt(schema, before, i) && keys[i] == before[i];
    }
  }

  lemma {:induction false} FindAt(keys: Keys, i: nat, target: string)
    requires i < |keys| && Lower(keys[i].0) == Lower(target)
    requires forall j, k :: 0 <= j < k < |keys| ==> Lower(keys[j].0) != Lower(keys[k].0)
    ensures FindCaseInsensitiveMatch(keys, target) == Some(keys[i].0) && Lookup(keys, keys[i].0) == Some(keys[i].1)
  {
    if i > 0 {
      FindAt(keys[1..], i - 1, target);
    }
  }

  /** The object behind the wrappers that the key map looks through. */
  function Unwrapped(schema: Schema): (r: Schema)
    ensures GetZodSchemaKeyMap(r) == GetZodSchemaKeyMap(schema)
  {
    match schema
    case Effects(inner) => Unwrapped(inner)
    case Nullable(inner) => Unwrapped(inner)
    case Optional(inner) => Unwrapped(inner)
    case Array(element) => Unwrapped(element)
    case _ => schema
  }

  /** `ks` leads through nested objects, without keys that differ by case only, to a leaf. */
  ghost predicate LeafPath(schema: Schema, ks: seq<string>)
    decreases |ks|
  {
    var obj := Unwrapped(schema);
    && ks != [] && obj.Object? && NoCaseClash(obj.shape)
    && exists i :: 0 <= i < |obj.shape| && LeafStep(obj.shape[i], ks)
  }

  ghost predicate LeafStep(entry: (string, Schema), ks: seq<string>)
    requires ks != []
    decreases |ks|, 0
  {
    entry.0 == ks[0] && if |ks| == 1 then GetZodSchemaKeyMap(entry.1) == [] else LeafPath(entry.1, ks[1..])
  }

  /** What the key map files such a leaf under: the last key in lower case. */
  function Filed(ks: seq<string>): seq<string>
    requires ks != []
  {
    ks[..|ks| - 1] + [Lower(ks[|ks| - 1])]
  }

  /** One step into a schema without case clashes finds the key up to case. */
  lemma ShapeMatched(schema: Schema, i: nat, target: string)
    requires Unwrapped(schema).Object? && NoCaseClash(Unwrapped(schema).shape)
    requires i < |Unwrapped(schema).shape| && Lower(target) == Lower(Unwrapped(schema).shape[i].0)
    ensures
      var keys, (key, value) := GetZodSchemaKeyMap(schema), Unwrapped(schema).shape[i];
      && keys != []
      && Match(keys, target) == Some(if GetZodSchemaKeyMap(value) != [] then key else Lower(key))
      && Below(keys, Match(keys, target).value) == GetZodSchemaKeyMap(value)
  {
    var obj, keys := Unwrapped(schema), GetZodSchemaKeyMap(schema);
    ReducedShape(obj, |obj.shape|);
    assert keys == ReduceShape(obj, |obj.shape|);
    var (key, value) := obj.shape[i];
    hide *;
    FoundAt(obj, keys, i, target);
    assert keys[i] == EntryFor(key, value);
    EntryMatched(keys, keys[i], key, value, target);
  }

  /** The entry of the shape's key at `i` is the one found for that key. */
  lemma FoundAt(obj: Schema, keys: Keys, i: nat, target: string)
    requires obj.Object? && NoCaseClash(obj.shape) && |keys| == |obj.shape| && i < |keys|
    requires forall j :: 0 <= j < |keys| ==> EntryAt(obj, keys, j)
    requires Lower(target) == Lower(obj.shape[i].0)
    ensures keys[i] == EntryFor(obj.shape[i].0, obj.shape[i].1)
    ensures FindCaseInsensitiveMatch(keys, target) == Some(keys[i].0) && Lookup(keys, keys[i].0) == Some(keys[i].1)
    ensures obj.shape[i].0 != ""
  {
    hide Lower, EntryFor, FindCaseInsensitiveMatch, Lookup;
    forall j, k | 0 <= j < k < |keys| ensures Lower(keys[j].0) != Lower(keys[k].0) {
      assert EntryAt(obj, keys, j) && EntryAt(obj, keys, k);
    }
    assert EntryAt(obj, keys, i);
    FindAt(keys, i, target);
  }

  lemma EntryMatched(keys: Keys, entry: (string, KeyMap), key: string, value: Schema, target: string)
    requires entry == EntryFor(key, value) && key != ""
    requires FindCaseInsensitiveMatch(keys, target) == Some(entry.0) && Lookup(keys, entry.0) == Some(entry.1)
    ensures keys != []
    ensures Match(keys, target) == Some(if GetZodSchemaKeyMap(value) != [] then key else Lower(key))
    ensures Below(keys, Match(keys, target).value) == GetZodSchemaKeyMap(value)
  {
    hide GetZodSchemaKeyMap, Lower;
    assert |Lower(key)| == |key| != 0;
  }

  lemma {:induction false} LeafPathMatched(schema: Schema, ks: seq<string>, path: seq<string>)
    requires LeafPath(schema, ks) && Fold(path) == Fold(ks)
    ensures path != [] && GetZodSchemaKeyMap(schema) != []
    ensures UnknownPart(GetZodSchemaKeyMap(schema), path).None?
            && Matched(GetZodSchemaKeyMap(schema), path) == Filed(ks)
    decreases |ks|
  {
    hide Unwrapped, Lower, GetZodSchemaKeyMap, Match, Below, NoCaseClash;
    var obj := Unwrapped(schema);
    var i :| 0 <= i < |obj.shape| && LeafStep(obj.shape[i], ks);
    assert Fold(path)[0] == Fold(ks)[0];
    ShapeMatched(schema, i, path[0]);
    if |ks| > 1 {
      assert Fold(path)[1..] == Fold(path[1..]) && Fold(ks)[1..] == Fold(ks[1..]);
      LeafPathMatched(obj.shape[i].1, ks[1..], path[1..]);
      assert Filed(ks) == [ks[0]] + Filed(ks[1..]);
    }
  }

  /** A variable aimed at a leaf of the schema is seen there exactly when the leaf's key has no
      capital letter; otherwise its value lands beside the leaf, which keeps its default. */
  lemma OverrideReachesLeafIff(schema: Schema, ks: seq<string>, t: Tree, path: seq<string>, value: Tree)
    requires LeafPath(schema, ks) && Fold(path) == Fold(ks) && path != []
    requires Apply(t, GetZodSchemaKeyMap(schema), path, value).Some?
    ensures
      var r := Apply(t, GetZodSchemaKeyMap(schema), path, value).value;
      && Get(r, Filed(ks)) == Some(value)
      && Get(r, ks) == if Lower(ks[|ks| - 1]) == ks[|ks| - 1] then Some(value) else Get(t, ks)
  {
    var keys := GetZodSchemaKeyMap(schema);
    LeafPathMatched(schema, ks, path);
    FiledAsIs(ks);
    assert |ks| == |path| by {
      assert |Fold(path)| == |Fold(ks)|;
    }
    hide *;
    WriteSeen(t, keys, path, value);
    if Filed(ks) != ks {
      MatchedDiverges(keys, path, ks);
      WriteFrame(t, keys, path, value, ks);
    }
  }

  lemma FiledAsIs(ks: seq<string>)
    requires ks != []
    ensures Filed(ks) == ks <==> Lower(ks[|ks| - 1]) == ks[|ks| - 1]
  {
    hide Lower;
    assert Filed(ks)[|ks| - 1] == Lower(ks[|ks| - 1]);
    assert ks == ks[..|ks| - 1] + [ks[|ks| - 1]];
  }

  lemma {:induction false} MatchedDiverges(keys: Keys, path: seq<string>, q: seq<string>)
    requires path != [] && |q| == |path| && UnknownPart(keys, path).None? && Matched(keys, path) != q
    ensures Diverges(keys, path, q)
    decreases |path|
  {
    var key := Match(keys, path[0]).value;
    var below := Below(keys, key);
    assert q == [q[0]] + q[1..];
    if key == q[0] {
      assert Matched(below, path[1..]) != q[1..];
      MatchedDiverges(below, path[1..], q[1..]);
    }
  }

  /** No key is listed twice. */
  ghost predicate Once(keys: Keys) {
    forall i, j :: 0 <= i < j < |keys| ==> keys[i].0 != keys[j].0
  }

  /** Filing under a key that is listed replaces what was there. */
  lemma {:induction false} SetKeyReplaces(keys: Keys, key: string, value: KeyMap)
    requires Once(keys)
    ensures Once(SetKey(keys, key, value))
    ensures forall e :: e in SetKey(keys, key, value) <==> e == (key, value) || (e in keys && e.0 != key)
  {
    if keys != [] && keys[0].0 != key {
      SetKeyReplaces(keys[1..], key, value);
      assert forall e :: e in keys <==> e == keys[0] || e in keys[1..];
      var rest := SetKey(keys[1..], key, value);
      forall j | 0 <= j < |rest| ensures rest[j].0 != keys[0].0 {
        assert rest[j] in rest;
      }
    }
  }

  /** So a key map lists no key twice: a later key of the schema replaces an equal one. */
  lemma {:induction false} KeysDistinct(schema: Schema, n: nat)
    requires schema.Object? && n <= |schema.shape|
    ensures Once(ReduceShape(schema, n))
  {
    if n > 0 {
      KeysDistinct(schema, n - 1);
      var (key, value) := schema.shape[n - 1];
      var entry := EntryFor(key, value);
      SetKeyReplaces(ReduceShape(schema, n - 1), entry.0, entry.1);
    }
  }

  /** No path with an empty part is known, such as that of a name with two adjacent underscores. */
  lemma {:induction false} EmptyPartUnknown(keys: Keys, path: seq<string>)
    requires "" in path
    ensures UnknownPart(keys, path).Some?
    decreases |path|
  {
    if path[0] != "" && Match(keys, path[0]).Some? {
      assert "" in path[1..];
      EmptyPartUnknown(Below(keys, Match(keys, path[0]).value), path[1..]);
    }
  }

  // ---------- From a variable's name to the setting ----------

  function Join(parts: seq<string>): string
    requires parts != []
  {
    if |parts| == 1 then parts[0] else parts[0] + "_" + Join(parts[1..])
  }

  /** No part has an underscore, which the naming scheme cannot express. */
  predicate Plain(parts: seq<string>) {
    forall i :: 0 <= i < |parts| ==> '_' !in parts[i]
  }

  lemma {:induction false} SplitJoin(parts: seq<string>)
    requires parts != [] && Plain(parts)
    ensures Split(Join(parts), "_") == parts
  {
    var first := parts[0];
    if |parts| == 1 {
      NoUnderscore(first, "");
      SplitAbsent(first, "_");
    } else {
      var joined, rest := Join(parts), Join(parts[1..]);
      SplitJoin(parts[1..]);
      NoUnderscore(first, "_" + rest);
      assert joined == first + ("_" + rest);
      assert joined[|first|..|first| + 1] == "_";
      SplitFirst(joined, "_", |first|);
      assert joined[..|first|] == first && joined[|first| + 1..] == rest;
      assert parts == [first] + parts[1..];
    }
  }

  lemma NoUnderscore(s: string, t: string)
    requires '_' !in s
    ensures forall j: nat :: j < |s| ==> !OccursAt(s + t, "_", j)
    ensures !Contains(s, "_")
  {
    forall j: nat | j < |s| ensures !OccursAt(s + t, "_", j) && !OccursAt(s, "_", j) {
      assert (s + t)[j..j + 1][0] == s[j] != "_"[0];
      assert s[j..j + 1][0] == s[j];
    }
  }

  /** Joining undoes splitting, and no part has an underscore. */
  lemma {:induction false} JoinSplit(s: string)
    ensures Join(Split(s, "_")) == s && Plain(Split(s, "_"))
    decreases |s|
  {
    var i := IndexFrom(s, "_", 0);
    forall j | 0 <= j < i ensures s[j] != '_' {
      assert s[j..j + 1] == [s[j]] && !OccursAt(s, "_", j);
    }
    if i < |s| {
      JoinSplit(s[i + 1..]);
      assert s == s[..i] + ("_" + s[i + 1..]);
      assert Split(s, "_")[1..] == Split(s[i + 1..], "_");
    } else {
      assert Split(s, "_") == [s];
    }
  }

  /** A variable counts exactly when it is not empty and its name begins with the prefix, whatever its case; the parts
      of its path are what stands between the underscores of the rest. Any other variable changes nothing and is no
      error; one that counts is an error exactly when its path is unknown, named by the first unknown part. */
  lemma VariableCountsIff(t: Option<Tree>, s: Setup, e: EnvVar)
    ensures
      var path := PathOf(s, e);
      && (path.Some?
          <==> && e.value != "" && |s.prefix| <= |e.key|
               && forall i :: 0 <= i < |s.prefix| ==> LowerChar(e.key[i]) == s.prefix[i])
      && (path.None? ==> Step(t, s, e) == t && ErrorOf(s, e) == [])
      && (path.Some? ==>
            && Plain(path.value) && s.prefix + Join(path.value) == Lower(e.key)
            && (ErrorOf(s, e) == [] <==> UnknownPart(s.keys, path.value).None?)
            && forall k: nat :: UnknownPart(s.keys, path.value) == Some(k) ==>
                 && k < |path.value|
                 && ErrorOf(s, e)
                    == [if k == |path.value| - 1 then InvalidFinalPart(e.key, path.value[k])
                        else InvalidPart(e.key, path.value[k])])
  {
    var key := Lower(e.key);
    if s.prefix <= key {
      JoinSplit(key[|s.prefix|..]);
      assert forall i :: 0 <= i < |s.prefix| ==> s.prefix[i] == key[i];
    }
    hide UnknownPart, Split, Join;
  }

  lemma {:induction false} LowerJoin(parts: seq<string>)
    requires parts != []
    ensures Lower(Join(parts)) == Join(Fold(parts))
  {
    if |parts| > 1 {
      LowerJoin(parts[1..]);
      assert Fold(parts)[1..] == Fold(parts[1..]);
    }
  }

  /** The variable named after a path stands for that path in lower case. */
  lemma PathOfNamed(s: Setup, e: EnvVar, parts: seq<string>)
    requires parts != [] && Plain(parts) && e.value != "" && Lower(e.key) == s.prefix + Lower(Join(parts))
    ensures PathOf(s, e) == Some(Fold(parts))
  {
    LowerJoin(parts);
    forall i | 0 <= i < |parts| ensures '_' !in Fold(parts)[i] {
      assert forall j :: 0 <= j < |parts[i]| ==> LowerChar(parts[i][j]) != '_';
    }
    SplitJoin(Fold(parts));
  }

  lemma FoldTwice(path: seq<string>)
    ensures Fold(Fold(path)) == Fold(path)
  {
    forall i | 0 <= i < |path| ensures Fold(Fold(path))[i] == Fold(path)[i] {
      LowerIdempotent(path[i]);
    }
  }

  /** End to end: among variables with pairwise-apart paths, the one named after a leaf of the
      schema is seen at that leaf exactly when the leaf's key has no capital letter. */
  lemma VariableReachesSettingIff(schema: Schema, ks: seq<string>, s: Setup, t: Tree, envs: seq<EnvVar>, i: nat)
    requires s.keys == GetZodSchemaKeyMap(schema) && LeafPath(schema, ks) && Plain(ks)
    requires i < |envs| && envs[i].value != "" && Lower(envs[i].key) == s.prefix + Lower(Join(ks))
    requires PairwiseSeparate(s, envs) && Merge(Some(t), s, envs).Some?
    ensures
      var r, value := Merge(Some(t), s, envs).value, s.parse(envs[i].value);
      && Get(r, Filed(ks)) == Some(value)
      && Get(r, ks) == if Lower(ks[|ks| - 1]) == ks[|ks| - 1] then Some(value) else Get(t, ks)
  {
    var a, e, b := envs[..i], envs[i], envs[i + 1..];
    PathOfNamed(s, e, ks);
    FoldTwice(ks);
    assert envs == a + [e] + b;
    MoveToEnd(Some(t), s, a, e, b);
    MergeLast(Some(t), s, a + b, e);
    forall f | f in a + b && PathOf(s, f).Some? ensures Apart(PathOf(s, f).value, ks) {
      assert Separate(s, f, e) || Separate(s, e, f);
    }
    hide *;
    MergeFrame(t, s, a + b, ks);
    OverrideReachesLeafIff(schema, ks, Merge(Some(t), s, a + b).value, Fold(ks), s.parse(e.value));
  }

  /** The override of an `endpointPrefix` lands under `endpointprefix`. */
  lemma EndpointPrefixLost(value: Tree)
    ensures
      var schema := Object([("endpointPrefix", Default(Schema.Scalar))]);
      Apply(Obj(map[]), GetZodSchemaKeyMap(schema), ["endpointprefix"], value)
        == Some(Obj(map["endpointprefix" := value]))
  {
    var schema := Object([("endpointPrefix", Default(Schema.Scalar))]);
    assert Lower("endpointPrefix") == "endpointprefix";
    assert Lower("endpointprefix") == "endpointprefix";
    assert ReduceShape(schema, 1) == [("endpointprefix", Name("endpointPrefix"))];
    assert map[]["endpointprefix" := value] == map["endpointprefix" := value];
  }

  // ---------- Paths that are not apart ----------

  /** The keys below a path. */
  function KeysAfter(keys: Keys, path: seq<string>): Keys
    decreases |path|
  {
    if path == [] || Match(keys, path[0]).None? then keys
    else KeysAfter(Below(keys, Match(keys, path[0]).value), path[1..])
  }

  /** What a write below a value starts from. */
  function Opened(t: Tree): Tree {
    if Truthy(t) then t else Obj(map[])
  }

  /** The tree with a value put at a path, if there is a value and the path can be walked. */
  function PutIf(t: Tree, keys: Keys, p: seq<string>, v: Option<Tree>): Option<Tree>
    requires p != []
  {
    if v.Some? then Apply(t, keys, p, v.value) else None
  }

  /** Writing at a path, then below it, puts there the value already written below. */
  lemma {:induction false} WriteThenBelow(t: Tree, keys: Keys, p: seq<string>, v: Tree, r: seq<string>, w: Tree)
    requires p != [] && r != [] && UnknownPart(keys, p).None?
    ensures Then(Apply(t, keys, p, v), keys, p + r, w) == PutIf(t, keys, p, Apply(Opened(v), KeysAfter(keys, p), r, w))
    decreases |p|
  {
    hide Match, Below, Matched;
    assert (p + r)[1..] == p[1..] + r;
    if t.Obj? {
      var key, fields := Match(keys, p[0]).value, t.fields;
      var below := Below(keys, key);
      if |p| == 1 {
        assert p[1..] + r == r && KeysAfter(keys, p) == below;
        PutTwice(fields, key, v, Apply(Opened(v), below, r, w));
      } else {
        var child := ChildOf(fields, key);
        var first := Apply(child, below, p[1..], v);
        WriteThenBelow(child, below, p[1..], v, r, w);
        if first.Some? {
          ApplyKeepsTruthy(child, below, p[1..], v);
          PutTwice(fields, key, first.value, Then(first, below, p[1..] + r, w));
        }
      }
    }
  }

  lemma PutTwice(fields: map<string, Tree>, key: string, first: Tree, second: Option<Tree>)
    ensures ChildOf(fields[key := first], key) == Opened(first)
    ensures second.Some? ==> fields[key := first][key := second.value] == fields[key := second.value]
  {
  }

  /** Writing below a path, then at it, leaves nothing of the first write but its throwing. */
  lemma {:induction false} BelowThenWrite(t: Tree, keys: Keys, p: seq<string>, v: Tree, r: seq<string>, w: Tree)
    requires p != [] && r != [] && UnknownPart(keys, p).None?
    ensures Then(Apply(t, keys, p + r, w), keys, p, v)
            == if Apply(t, keys, p + r, w).Some? then Apply(t, keys, p, v) else None
    ensures Apply(t, keys, p + r, w).Some? ==> Apply(t, keys, p, v).Some?
    decreases |p|
  {
    hide Match, Below, ChildOf, Opened;
    assert (p + r)[1..] == p[1..] + r;
    if t.Obj? {
      var key, fields := Match(keys, p[0]).value, t.fields;
      var child, below := ChildOf(fields, key), Below(keys, key);
      var first := Apply(child, below, p[1..] + r, w);
      if first.Some? {
        if |p| > 1 {
          BelowThenWrite(child, below, p[1..], v, r, w);
          ChildTruthy(fields, key);
          ApplyKeepsTruthy(child, below, p[1..] + r, w);
          PutTwice(fields, key, first.value, Apply(child, below, p[1..], v));
          OpenedTruthy(first.value);
        } else {
          PutTwice(fields, key, first.value, Some(v));
        }
      }
    }
  }

  lemma ChildTruthy(fields: map<string, Tree>, key: string)
    ensures Truthy(ChildOf(fields, key))
  {
  }

  lemma OpenedTruthy(t: Tree)
    requires Truthy(t)
    ensures Opened(t) == t
  {
  }

  /** A value a write would not change: it holds what a known path writes, or all that the walk along an
      unknown path passes. */
  predicate HoldsAlready(t: Tree, keys: Keys, r: seq<string>, w: Tree) {
    var at := Get(t, Matched(keys, r));
    if UnknownPart(keys, r).None? then at == Some(w) else at.Some? && Truthy(at.value)
  }

  /** Writing what is already there, and only that, changes nothing. */
  lemma {:induction false} WriteKeepsIff(t: Tree, keys: Keys, r: seq<string>, w: Tree)
    requires r != []
    ensures Apply(Opened(t), keys, r, w) == Some(t) <==> HoldsAlready(t, keys, r, w)
    decreases |r|
  {
    var key, m := Match(keys, r[0]), Matched(keys, r);
    if key.None? {
      assert m == [];
    } else if t.Obj? {
      var below := Below(keys, key.value);
      assert m == [key.value] + Matched(below, r[1..]) && m[1..] == Matched(below, r[1..]);
      assert Get(t, m) == if key.value in t.fields then Get(t.fields[key.value], m[1..]) else None;
      assert UnknownPart(keys, r).None? <==> UnknownPart(below, r[1..]).None?;
      assert |r| == 1 ==> m[1..] == [] && UnknownPart(below, r[1..]).None?;
      KeepsBelow(t.fields, keys, r, w);
      if |r| > 1 && key.value in t.fields {
        WriteKeepsIff(t.fields[key.value], below, r[1..], w);
      }
    }
  }

  /** One level of the same: a write changes nothing exactly when its key is there and nothing changes below. */
  lemma KeepsBelow(fields: map<string, Tree>, keys: Keys, r: seq<string>, w: Tree)
    requires r != [] && Match(keys, r[0]).Some?
    ensures
      var key, t := Match(keys, r[0]).value, Obj(fields);
      Apply(t, keys, r, w) == Some(t)
      <==> key in fields
           && if |r| == 1 then fields[key] == w
              else Apply(Opened(fields[key]), Below(keys, key), r[1..], w) == Some(fields[key])
  {
    var key := Match(keys, r[0]).value;
    if key in fields {
      assert fields[key := fields[key]] == fields;
    }
    if Apply(Obj(fields), keys, r, w) == Some(Obj(fields)) {
      var put := if |r| == 1 then w else Apply(ChildOf(fields, key), Below(keys, key), r[1..], w).value;
      assert fields[key := put] == fields && key in fields[key := put];
    }
  }

  /** When the shorter path is unknown already, both writes do the same. */
  lemma {:induction false} SameUnknown(t: Tree, keys: Keys, p: seq<string>, v: Tree, r: seq<string>, w: Tree)
    requires p != [] && UnknownPart(keys, p).Some?
    ensures Apply(t, keys, p + r, w) == Apply(t, keys, p, v)
    decreases |p|
  {
    var key := Match(keys, p[0]);
    if key.Some? && t.Obj? {
      assert (p + r)[1..] == p[1..] + r;
      SameUnknown(ChildOf(t.fields, key.value), Below(keys, key.value), p[1..], v, r, w);
    }
  }

  /** Two paths, one a prefix of the other: the order is irrelevant exactly when the shorter one is unknown or
      its write throws, or both orders throw below it, or its value already holds what the longer one needs. */
  lemma PrefixesCommuteIff(t: Tree, keys: Keys, p: seq<string>, v: Tree, r: seq<string>, w: Tree)
    requires p != [] && r != []
    ensures
      var shorterFirst := Then(Apply(t, keys, p, v), keys, p + r, w);
      var longerFirst := Then(Apply(t, keys, p + r, w), keys, p, v);
      shorterFirst == longerFirst
      <==> || UnknownPart(keys, p).Some? || Apply(t, keys, p, v).None?
           || (Apply(t, keys, p + r, w).None? && Apply(Opened(v), KeysAfter(keys, p), r, w).None?)
           || (Apply(t, keys, p + r, w).Some? && HoldsAlready(v, KeysAfter(keys, p), r, w))
  {
    if UnknownPart(keys, p).Some? {
      SameUnknown(t, keys, p, v, r, w);
      if Apply(t, keys, p, v).Some? {
        SameUnknown(Apply(t, keys, p, v).value, keys, p, v, r, w);
      }
    } else {
      var inner := Apply(Opened(v), KeysAfter(keys, p), r, w);
      WriteThenBelow(t, keys, p, v, r, w);
      BelowThenWrite(t, keys, p, v, r, w);
      WriteKeepsIff(v, KeysAfter(keys, p), r, w);
      ThrowsAlike(t, keys, p, v, inner.GetOr(v));
      if Apply(t, keys, p, v).Some? && inner.Some? {
        WriteSeen(t, keys, p, v);
        WriteSeen(t, keys, p, inner.value);
      }
    }
  }

  /** Whether a write throws does not depend on the value written. */
  lemma ThrowsAlike(t: Tree, keys: Keys, p: seq<string>, v: Tree, v': Tree)
    requires p != []
    ensures Apply(t, keys, p, v).None? <==> Apply(t, keys, p, v').None?
  {
    ThrowsIffPrimitive(t, keys, p, v);
    ThrowsIffPrimitive(t, keys, p, v');
  }
}
