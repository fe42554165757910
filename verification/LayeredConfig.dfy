/** Paths into a configuration, as sequences of keys and as the names the program makes of them: the keys joined
    with dots. The program takes a name that starts with another and a dot for one that lies below it. This says
    for which keys names are as good as paths. */
module DottedPaths {
  type Path = seq<string>

  predicate IsSpace(c: char) {
    c == ' ' || 0x09 as char <= c <= 0x0D as char || 0x1C as char <= c <= 0x1F as char
  }

  /** What `not key.strip()` tests; a key that is not a string is represented by a blank one. */
  predicate Blank(key: string) {
    forall i :: 0 <= i < |key| ==> IsSpace(key[i])
  }

  /** The name of `key` under `prefix`, which is empty at the root. */
  function Name(prefix: string, key: string): string {
    if prefix == "" then key else prefix + "." + key
  }

  function Join(p: Path): string
    requires p != []
  {
    if |p| == 1 then p[0] else p[0] + "." + Join(p[1..])
  }

  /** `p` lies strictly below `at`. */
  predicate Below(at: Path, p: Path) {
    |at| < |p| && p[..|at|] == at
  }

  predicate AtOrBelow(at: Path, p: Path) {
    |at| <= |p| && p[..|at|] == at
  }

  predicate NameBelow(name: string, other: string) {
    name + "." <= other
  }

  predicate NonBlank(p: Path) {
    forall i :: 0 <= i < |p| ==> !Blank(p[i])
  }

  /** A dot in the key with something other than white space before it. */
  predicate Risky(key: string) {
    exists i :: 0 <= i < |key| && key[i] == '.' && !Blank(key[..i])
  }

  predicate SafeKey(key: string) {
    !Blank(key) && !Risky(key)
  }

  predicate Safe(p: Path) {
    forall i :: 0 <= i < |p| ==> SafeKey(p[i])
  }

  lemma DotFreeIsSafe(key: string)
    requires !Blank(key) && '.' !in key
    ensures SafeKey(key)
  {
    forall i | 0 <= i < |key| ensures key[i] != '.' {
      assert key[i] in key;
    }
  }

  lemma JoinNotBlank(p: Path)
    requires p != [] && NonBlank(p)
    ensures !Blank(Join(p))
  {
    var i :| 0 <= i < |p[0]| && !IsSpace(p[0][i]);
    assert Join(p)[i] == p[0][i];
  }

  lemma {:induction false} JoinSnoc(p: Path, key: string)
    requires NonBlank(p)
    ensures Join(p + [key]) == Name(if p == [] then "" else Join(p), key)
  {
    if p != [] {
      JoinNotBlank(p);
      if |p| > 1 {
        JoinSnoc(p[1..], key);
        JoinNotBlank(p[1..]);
        assert (p + [key])[1..] == p[1..] + [key];
        assert Join(p + [key]) == p[0] + "." + (Join(p[1..]) + "." + key);
      } else {
        assert (p + [key])[1..] == [key];
      }
    }
  }

  lemma StartsWith(a: string, s: string)
    ensures a + "." <= s <==> |a| < |s| && s[|a|] == '.' && s[..|a|] == a
  {
    if a + "." <= s { assert s[|a|] == (a + ".")[|a|] && s[..|a|] == (a + ".")[..|a|]; }
  }

  /** A safe key does not start with a usable one and a dot. */
  lemma SafeHead(key: string, other: string)
    requires SafeKey(key) && !Blank(other)
    ensures !NameBelow(other, key)
  {
    if |other| < |key| && key[|other|] == '.' && key[..|other|] == other {
      assert Risky(key);
    } else {
      StartsWith(other, key);
    }
  }

  /** The first key of a name can be told from the name. */
  lemma HeadsAgree(a: string, b: string, name: string)
    requires SafeKey(a) && SafeKey(b) && a + "." <= name && b + "." <= name
    ensures a == b
  {
    StartsWith(a, name);
    StartsWith(b, name);
    SafeHead(a, b);
    SafeHead(b, a);
    StartsWith(a, b);
    StartsWith(b, a);
    assert a == name[..|a|] && b == name[..|b|];
    hide SafeKey, Blank;
  }

  lemma Heads(p: Path)
    requires |p| > 1
    ensures Join(p) == p[0] + "." + Join(p[1..]) && p[0] + "." <= Join(p)
  {
    assert Join(p) == (p[0] + ".") + Join(p[1..]);
  }

  lemma PrefixOfPrefix(a: string, b: string, c: string)
    requires a <= b
    ensures b <= c ==> a <= c
  {
  }

  /** A name of one safe key is no other path's, nor below one. */
  lemma LoneKey(key: string, q: Path)
    requires SafeKey(key) && q != [] && Safe(q)
    ensures |q| > 1 ==> Join(q) != key
    ensures !NameBelow(Join(q), key)
  {
    SafeHead(key, q[0]);
    if |q| > 1 {
      Heads(q);
      PrefixOfPrefix(q[0] + ".", Join(q) + ".", key);
    }
  }

  /** Paths of safe keys have names of their own. */
  lemma {:induction false} JoinInjective(p: Path, q: Path)
    requires p != [] && q != [] && Safe(p) && Safe(q)
    ensures Join(p) == Join(q) <==> p == q
  {
    if |p| == 1 {
      LoneKey(p[0], q);
    } else if |q| == 1 {
      LoneKey(q[0], p);
    } else {
      Heads(p);
      Heads(q);
      JoinInjective(p[1..], q[1..]);
      assert p == [p[0]] + p[1..] && q == [q[0]] + q[1..];
      if Join(p) == Join(q) {
        HeadsAgree(p[0], q[0], Join(p));
        assert Join(p)[|p[0]| + 1..] == Join(p[1..]) && Join(q)[|q[0]| + 1..] == Join(q[1..]);
      }
    }
  }

  /** And a name starts with another and a dot exactly where its path lies below. */
  lemma {:induction false} PrefixIsBelow(at: Path, p: Path)
    requires at != [] && p != [] && Safe(at) && Safe(p)
    ensures NameBelow(Join(at), Join(p)) <==> Below(at, p)
  {
    if |p| == 1 {
      LoneKey(p[0], at);
    } else if at[0] == p[0] {
      BelowHead(at, p);
      Heads(p);
      if |at| > 1 {
        Heads(at);
        PrefixIsBelow(at[1..], p[1..]);
        assert Join(at) + "." == (p[0] + ".") + (Join(at[1..]) + ".");
        PrefixSkips(p[0] + ".", Join(at[1..]) + ".", Join(p[1..]));
      }
    } else {
      BelowHead(at, p);
      OtherHead(at, p);
    }
  }

  lemma BelowHead(at: Path, p: Path)
    requires at != [] && |p| > 1
    ensures Below(at, p) <==> at[0] == p[0] && (|at| == 1 || Below(at[1..], p[1..]))
  {
    if |at| < |p| {
      assert p[..|at|] == [p[0]] + p[1..][..|at| - 1] && at == [at[0]] + at[1..];
      assert ([p[0]] + p[1..][..|at| - 1])[1..] == p[1..][..|at| - 1];
    }
  }

  lemma OtherHead(at: Path, p: Path)
    requires at != [] && |p| > 1 && Safe(at) && Safe(p)
    ensures NameBelow(Join(at), Join(p)) ==> at[0] == p[0]
  {
    if |at| > 1 { Heads(at); }
    Heads(p);
    assert at[0] + "." <= Join(at) + ".";
    if NameBelow(Join(at), Join(p)) {
      PrefixOfPrefix(at[0] + ".", Join(at) + ".", Join(p));
      HeadsAgree(at[0], p[0], Join(p));
    }
  }

  lemma PrefixSkips(a: string, b: string, c: string)
    ensures a + b <= a + c <==> b <= c
  {
    if a + b <= a + c {
      forall i | 0 <= i < |b| ensures i < |c| && b[i] == c[i] {
        assert (a + b)[|a| + i] == b[i] && (a + c)[|a| + i] == c[i];
      }
    }
  }

  /** Another path with the name of the path [key]. */
  predicate IsTwin(key: string, q: Path) {
    q != [] && NonBlank(q) && q != [key] && Join(q) == key
  }

  /** A dot with something visible on both sides. */
  predicate SplitsAt(key: string, i: nat) {
    i < |key| && key[i] == '.' && !Blank(key[..i]) && !Blank(key[i + 1..])
  }

  /** Two paths share a name exactly where a key has such a dot. */
  lemma CollidesExactly(key: string)
    requires !Blank(key)
    ensures (exists q :: IsTwin(key, q)) <==> (exists i :: SplitsAt(key, i))
  {
    if q :| IsTwin(key, q) { TwinSplits(key, q); }
    if i: nat :| SplitsAt(key, i) { SplitHasTwin(key, i); }
    hide IsTwin, SplitsAt;
  }

  lemma TwinSplits(key: string, q: Path)
    requires IsTwin(key, q)
    ensures SplitsAt(key, |q[0]|)
  {
    Heads(q);
    JoinNotBlank(q[1..]);
    StartsWith(q[0], key);
    hide Blank, Join;
    assert key[|q[0]| + 1..] == Join(q[1..]);
  }

  lemma SplitHasTwin(key: string, i: nat)
    requires SplitsAt(key, i)
    ensures IsTwin(key, [key[..i], key[i + 1..]])
  {
    hide Blank;
    var q := [key[..i], key[i + 1..]];
    assert q[1..] == [key[i + 1..]] && Join(q[1..]) == key[i + 1..];
    assert |q| == 2 && |[key]| == 1;
    assert key == key[..i] + "." + key[i + 1..];
  }

  /** The part of a risky key before its first offending dot is itself safe. */
  lemma {:induction false} SafePart(key: string) returns (part: string)
    requires Risky(key)
    ensures SafeKey(part) && NameBelow(part, key) && |part| < |key|
  {
    var i :| 0 <= i < |key| && key[i] == '.' && !Blank(key[..i]);
    part := key[..i];
    if Risky(part) {
      var shorter := SafePart(part);
      assert shorter + "." <= part <= key;
      part := shorter;
    } else {
      assert part + "." == key[..i + 1];
    }
  }
}

/** Layered configuration with provenance (ConfigurationResolver.resolve).

    Six layers are merged one after the other into one tree, in place, while a second table remembers for each
    path, under its name, which layers supplied it. What the entries should be is a function of paths; the table
    of names is its image as long as no key has a dot after something visible, and only then. */
module LayeredConfig {
  import opened DottedPaths
  import opened Sequences
  import opened Wrappers

  datatype Atom = Null | Bool(b: bool) | Int(i: int) | Float(f: real) | Text(s: string)

  /** A configuration value. `Unusable` stands for NaN, an infinity or a value of any other type. */
  datatype Value =
    | Dict(entries: map<string, Value>)
    | List(items: seq<Value>)
    | Scalar(atom: Atom)
    | Unusable

  /** The values _copy_config accepts; it returns an equal value. */
  predicate Clean(v: Value) {
    match v
    case Dict(entries) => forall k :: k in entries ==> !Blank(k) && Clean(entries[k])
    case List(items) => forall i :: 0 <= i < |items| ==> Clean(items[i])
    case Scalar(_) => true
    case Unusable => false
  }

  datatype Step = Key(key: string) | Item(index: nat)

  /** The part of a value that the steps lead to, through dictionaries and lists. */
  function Part(v: Value, steps: seq<Step>): Option<Value> {
    if steps == [] then Some(v)
    else match steps[0]
      case Key(k) => if v.Dict? && k in v.entries then Part(v.entries[k], steps[1..]) else None
      case Item(i) => if v.List? && i < |v.items| then Part(v.items[i], steps[1..]) else None
  }

  /** A value with nothing unusable and no blank key in any part of it. */
  ghost predicate UsableThroughout(v: Value) {
    forall steps :: Part(v, steps).Some? ==> PartOk(Part(v, steps).value)
  }

  predicate PartOk(v: Value) {
    !v.Unusable? && (v.Dict? ==> forall k :: k in v.entries ==> !Blank(k))
  }

  lemma PartOfChild(v: Value, step: Step, child: Value)
    requires Part(v, [step]) == Some(child) && UsableThroughout(v)
    ensures UsableThroughout(child)
  {
    hide PartOk;
    forall steps | Part(child, steps).Some? ensures PartOk(Part(child, steps).value) {
      assert ([step] + steps)[1..] == steps;
      assert Part(v, [step] + steps) == Part(child, steps);
    }
  }

  lemma PartsOfChildren(v: Value)
    requires PartOk(v)
    requires forall step :: Part(v, [step]).Some? ==> UsableThroughout(Part(v, [step]).value)
    ensures UsableThroughout(v)
  {
    hide PartOk;
    forall steps | Part(v, steps).Some? ensures PartOk(Part(v, steps).value) {
      if steps != [] {
        assert Part(v, [steps[0]]).Some?;
        assert Part(v, steps) == Part(Part(v, [steps[0]]).value, steps[1..]);
      }
    }
  }

  /** The check of a value looks at every part of it. */
  lemma {:induction false} CleanExactly(v: Value)
    ensures Clean(v) <==> UsableThroughout(v)
  {
    hide Blank;
    assert Part(v, []) == Some(v);
    forall step | Part(v, [step]).Some?
      ensures Clean(Part(v, [step]).value) <==> UsableThroughout(Part(v, [step]).value)
    {
      match step
      case Key(k) => CleanExactly(v.entries[k]);
      case Item(i) => CleanExactly(v.items[i]);
    }
    if Clean(v) {
      PartsOfChildren(v);
    }
    if UsableThroughout(v) {
      forall step | Part(v, [step]).Some? ensures UsableThroughout(Part(v, [step]).value) {
        PartOfChild(v, step, Part(v, [step]).value);
      }
      ChildrenMakeClean(v);
    }
  }

  lemma ChildrenMakeClean(v: Value)
    requires PartOk(v)
    requires forall step :: Part(v, [step]).Some? ==> Clean(Part(v, [step]).value)
    ensures Clean(v)
  {
    if v.Dict? {
      forall k | k in v.entries ensures Clean(v.entries[k]) { assert Part(v, [Key(k)]) == Some(v.entries[k]); }
    } else if v.List? {
      forall i: nat | i < |v.items| ensures Clean(v.items[i]) { assert Part(v, [Item(i)]) == Some(v.items[i]); }
    }
  }

  // ---- The merge as a function -------------------------------------------

  /** The child of a node; a missing one is as good as any scalar. */
  function Child(v: Value, k: string): Value {
    if v.Dict? && k in v.entries then v.entries[k] else Scalar(Null)
  }

  function Keys(v: Value): set<string> {
    if v.Dict? then v.entries.Keys else {}
  }

  /** Recursive override: dictionaries merge, everything else replaces. */
  function Override(b: Value, s: Value): Value
    decreases s
  {
    if !s.Dict? then s
    else Dict(map k | k in Keys(b) + s.entries.Keys ::
                if k in s.entries then Override(Child(b, k), s.entries[k]) else b.entries[k])
  }

  /** The layers overridden one by one, the first the weakest. */
  function Fold(layers: seq<Value>): Value {
    if layers == [] then Dict(map[]) else Override(Fold(layers[..|layers| - 1]), layers[|layers| - 1])
  }

  function NodeAt(v: Value, p: Path): Option<Value> {
    if p == [] then Some(v)
    else if v.Dict? && p[0] in v.entries then NodeAt(v.entries[p[0]], p[1..])
    else None
  }

  /** A scalar, a list or an empty dictionary: a node with nothing below it. */
  predicate Terminal(v: Value) {
    v.Dict? ==> v.entries == map[]
  }

  // ---- Laws of the merge -------------------------------------------------

  lemma {:induction false} OverrideNothing(b: Value, s: Value)
    requires s.Dict? && !b.Dict?
    ensures Override(b, s) == s
    decreases s
  {
    forall k | k in s.entries ensures Override(Scalar(Null), s.entries[k]) == s.entries[k] {
      if s.entries[k].Dict? { OverrideNothing(Scalar(Null), s.entries[k]); }
    }
    assert Override(b, s).entries == s.entries;
  }

  /** An empty layer changes nothing. */
  lemma OverrideByEmpty(b: Value)
    requires b.Dict?
    ensures Override(b, Dict(map[])) == b
  {
    assert Override(b, Dict(map[])).entries == b.entries;
  }

  /** Applying the last layer again changes no value. */
  lemma {:induction false} OverrideTwice(b: Value, s: Value)
    ensures Override(Override(b, s), s) == Override(b, s)
    decreases s
  {
    if s.Dict? {
      var once := Override(b, s);
      forall k | k in once.entries ensures Override(once, s).entries[k] == once.entries[k] {
        if k in s.entries { OverrideTwice(Child(b, k), s.entries[k]); }
      }
      assert Override(once, s).entries == once.entries;
    }
  }

  /** Everything in `a` is overwritten by `c`. */
  predicate Covers(c: Value, a: Value) {
    if !c.Dict? then true
    else forall k :: k in Keys(a) ==> k in c.entries && Covers(c.entries[k], Child(a, k))
  }

  lemma {:induction false} CoversExactly(c: Value, a: Value)
    ensures Covers(c, a) <==> Override(a, c) == c
    decreases c
  {
    if c.Dict? {
      forall k | k in c.entries
        ensures Covers(c.entries[k], Child(a, k)) <==> Override(Child(a, k), c.entries[k]) == c.entries[k]
      {
        CoversExactly(c.entries[k], Child(a, k));
      }
      if Covers(c, a) {
        forall k | k in c.entries ensures Override(a, c).entries[k] == c.entries[k] {
          if k !in Keys(a) {
            NotDictCovered(c.entries[k], Child(a, k));
            CoversExactly(c.entries[k], Child(a, k));
          }
        }
        assert Override(a, c).entries == c.entries;
      }
      if Override(a, c) == c {
        forall k | k in Keys(a) ensures k in c.entries && Covers(c.entries[k], Child(a, k)) {
          assert k in Override(a, c).entries;
        }
      }
    }
  }

  lemma NotDictCovered(c: Value, a: Value)
    requires !a.Dict?
    ensures Covers(c, a)
  {
  }

  /** Where a dictionary of `a` is replaced by a value in `b` that is none, and `c` has a dictionary there
      again, that of `c` overwrites all of the first. */
  predicate Associates(a: Value, b: Value, c: Value)
    decreases c
  {
    c.Dict? && a.Dict? ==>
      if b.Dict? then
        forall k :: k in c.entries && k in b.entries && k in a.entries ==>
          Associates(a.entries[k], b.entries[k], c.entries[k])
      else Covers(c, a)
  }

  /** The merge is not associative, and this is exactly when it is. */
  lemma {:induction false} AssociativeExactlyWhen(a: Value, b: Value, c: Value)
    ensures Override(Override(a, b), c) == Override(a, Override(b, c)) <==> Associates(a, b, c)
    decreases c
  {
    if !c.Dict? {
    } else if !b.Dict? {
      OverrideNothing(b, c);
      CoversExactly(c, a);
      if !a.Dict? { OverrideNothing(a, c); }
    } else if !a.Dict? {
      OverrideNothing(a, b);
      OverrideNothing(a, Override(b, c));
    } else {
      BothDicts(a, b, c);
    }
  }

  lemma OverrideAt(b: Value, s: Value, k: string)
    requires s.Dict?
    ensures Override(b, s).Dict? && Keys(Override(b, s)) == Keys(b) + Keys(s)
    ensures Child(Override(b, s), k) == if k in s.entries then Override(Child(b, k), s.entries[k]) else Child(b, k)
  {
  }

  lemma SameChildren(v: Value, w: Value)
    requires v.Dict? && w.Dict? && Keys(v) == Keys(w)
    ensures v == w <==> forall k :: k in v.entries ==> Child(v, k) == Child(w, k)
  {
    if forall k :: k in v.entries ==> Child(v, k) == Child(w, k) {
      forall k | k in v.entries ensures v.entries[k] == w.entries[k] {
        assert Child(v, k) == Child(w, k);
      }
      assert v.entries == w.entries;
    }
  }

  lemma BothDicts(a: Value, b: Value, c: Value)
    requires a.Dict? && b.Dict? && c.Dict?
    ensures Override(Override(a, b), c) == Override(a, Override(b, c)) <==> Associates(a, b, c)
    decreases c, 0
  {
    var left, right := Override(Override(a, b), c), Override(a, Override(b, c));
    OverrideAt(Override(a, b), c, "");
    OverrideAt(a, b, "");
    OverrideAt(b, c, "");
    OverrideAt(a, Override(b, c), "");
    forall k
      ensures Child(left, k) == Child(right, k) <==>
              (k in c.entries && k in b.entries && k in a.entries ==>
                 Associates(a.entries[k], b.entries[k], c.entries[k]))
    {
      hide Override, Associates;
      OverrideAt(Override(a, b), c, k);
      OverrideAt(a, b, k);
      OverrideAt(b, c, k);
      OverrideAt(a, Override(b, c), k);
      if k in c.entries && k in b.entries {
        AssociativeExactlyWhen(Child(a, k), b.entries[k], c.entries[k]);
        if k !in a.entries { NothingAssociates(b.entries[k], c.entries[k]); }
      } else if k in c.entries {
        OverMissing(c.entries[k]);
      }
    }
    hide Override;
    SameChildren(left, right);
  }

  lemma NothingAssociates(b: Value, c: Value)
    ensures Associates(Scalar(Null), b, c)
  {
  }

  lemma OverMissing(s: Value)
    ensures Override(Scalar(Null), s) == s
  {
    if s.Dict? { OverrideNothing(Scalar(Null), s); }
  }

  /** An empty layer, like an absent one, changes nothing wherever it stands. */
  lemma {:induction false} FoldSkipsEmpty(before: seq<Value>, after: seq<Value>)
    requires AllDicts(before)
    ensures Fold(before + [Dict(map[])] + after) == Fold(before + after)
    decreases |after|
  {
    var layers, shorter := before + [Dict(map[])] + after, before + after;
    if after == [] {
      assert layers[..|layers| - 1] == before && shorter == before;
      FoldIsDict(before);
      OverrideByEmpty(Fold(before));
    } else {
      assert layers[..|layers| - 1] == before + [Dict(map[])] + after[..|after| - 1];
      assert shorter[..|shorter| - 1] == before + after[..|after| - 1];
      FoldSkipsEmpty(before, after[..|after| - 1]);
    }
  }

  predicate AllDicts(layers: seq<Value>) {
    forall i :: 0 <= i < |layers| ==> layers[i].Dict?
  }

  lemma FoldIsDict(layers: seq<Value>)
    requires AllDicts(layers)
    ensures Fold(layers).Dict?
  {
  }

  /** Resolving with the strongest layer given a second time changes no value. */
  lemma FoldLastTwice(layers: seq<Value>)
    requires layers != []
    ensures Fold(layers + [layers[|layers| - 1]]) == Fold(layers)
  {
    var last := layers[|layers| - 1];
    assert (layers + [last])[..|layers|] == layers;
    OverrideTwice(Fold(layers[..|layers| - 1]), last);
  }

  /** A value that is no dictionary in the strongest layer is what the merged tree has at that path. */
  lemma {:induction false} StrongestLayerWins(b: Value, s: Value, p: Path)
    requires NodeAt(s, p).Some? && !NodeAt(s, p).value.Dict?
    ensures NodeAt(Override(b, s), p) == NodeAt(s, p)
    decreases |p|
  {
    if p != [] {
      OverrideAt(b, s, p[0]);
      StrongestLayerWins(Child(b, p[0]), s.entries[p[0]], p[1..]);
    }
  }

  lemma NotAssociative()
    ensures exists a: Value, b: Value, c: Value ::
              a.Dict? && b.Dict? && c.Dict? && Override(Override(a, b), c) != Override(a, Override(b, c))
  {
    var one := Scalar(Int(1));
    var inner, other := Dict(map["y" := one]), Dict(map["z" := one]);
    var a, b, c := Dict(map["x" := inner]), Dict(map["x" := one]), Dict(map["x" := other]);
    assert !Covers(other, inner) by { assert "y" in Keys(inner); }
    assert !Associates(inner, one, other);
    hide Covers;
    assert "x" in c.entries;
    assert !Associates(a, b, c);
    hide Override, Associates;
    AssociativeExactlyWhen(a, b, c);
  }

  // ---- What a layer does to the provenance of one path -------------------

  type Layer = nat  // position in the order of precedence

  /** The entry of path `p` below a node that was `b` and gets `s` merged into it by `layer`. */
  function Entry(b: Value, s: Value, was: seq<Layer>, p: Path, layer: Layer): seq<Layer>
    decreases |p|
  {
    if p == [] then
      if !s.Dict? then (if b.Dict? then [] else was) + [layer]
      else if !b.Dict? then (if s.entries == map[] then [layer] else [])
      else if s.entries == map[] && b.entries == map[] then was + [layer]
      else was
    else if !s.Dict? then (if b.Dict? then [] else was)
    else
      var kept := if b.Dict? then was else [];
      if p[0] in s.entries then Entry(Child(b, p[0]), s.entries[p[0]], kept, p[1..], layer) else kept
  }

  /** Where the entry comes from: with a final node at the path, either the layer supplied it and is named
      last, or the layer does not mention the path and nothing changed. */
  lemma {:induction false} EntryOfTerminal(b: Value, s: Value, was: seq<Layer>, p: Path, layer: Layer)
    requires NodeAt(Override(b, s), p).Some? && Terminal(NodeAt(Override(b, s), p).value)
    ensures var e := Entry(b, s, was, p, layer);
            || (NodeAt(s, p) == NodeAt(Override(b, s), p) && e != [] && e[|e| - 1] == layer)
            || (NodeAt(s, p) == None && NodeAt(b, p) == NodeAt(Override(b, s), p) && e == was)
    decreases |p|
  {
    if p == [] {
      if s.Dict? { assert Override(b, s).entries.Keys == Keys(b) + s.entries.Keys; OverEmpty(b, s); }
    } else {
      assert s.Dict?;
      OverrideAt(b, s, p[0]);
      if p[0] in s.entries {
        EntryOfTerminal(Child(b, p[0]), s.entries[p[0]], if b.Dict? then was else [], p[1..], layer);
        if p[0] !in Keys(b) { NothingBelow(p[1..]); }
      }
    }
  }

  lemma OverEmpty(b: Value, s: Value)
    requires s.Dict? && Keys(b) + s.entries.Keys == {}
    ensures Override(b, s) == s && s.entries == map[] && (b.Dict? ==> b.entries == map[])
  {
  }

  lemma NothingBelow(p: Path)
    ensures p != [] ==> NodeAt(Scalar(Null), p) == None
  {
  }

  /** A layer is added to an entry only where it has a scalar, a list or an empty dictionary, and an entry is
      kept only while its path exists. */
  lemma {:induction false} EntryNamesNodes(b: Value, s: Value, was: seq<Layer>, p: Path, layer: Layer)
    requires was != [] ==> NodeAt(b, p).Some?
    ensures var e := Entry(b, s, was, p, layer);
            && (e == was || e == [] || e == was + [layer] || e == [layer])
            && (e != was && e != [] ==> NodeAt(s, p).Some? && Terminal(NodeAt(s, p).value))
            && (e != [] ==> NodeAt(Override(b, s), p).Some?)
    decreases |p|
  {
    if p == [] {
    } else if s.Dict? {
      OverrideAt(b, s, p[0]);
      var kept := if b.Dict? then was else [];
      if p[0] in s.entries {
        if p[0] in Keys(b) {
          EntryNamesNodes(b.entries[p[0]], s.entries[p[0]], kept, p[1..], layer);
        } else {
          EntryNamesNodes(Scalar(Null), s.entries[p[0]], [], p[1..], layer);
        }
      }
    }
  }

  // ---- Agreement of the tree with its provenance -------------------------

  /** The entry `e` of path `p` is right for the merge of `layers`. */
  ghost predicate EntryOk(layers: seq<Value>, p: Path, e: seq<Layer>) {
    var node := NodeAt(Fold(layers), p);
    && Increasing(e)
    && AllSupply(layers, p, e)
    && (e != [] ==> node.Some?)
    && (node.Some? && Terminal(node.value) ==> e != [] && LastSupplier(layers, p, node.value, e[|e| - 1]))
  }

  predicate SuppliesTerminal(layer: Value, p: Path) {
    NodeAt(layer, p).Some? && Terminal(NodeAt(layer, p).value)
  }

  ghost predicate AllSupply(layers: seq<Value>, p: Path, e: seq<Layer>) {
    forall i :: 0 <= i < |e| ==> e[i] < |layers| && SuppliesTerminal(layers[e[i]], p)
  }

  /** Layer `n` has `v` at the path, and no later layer mentions the path. */
  ghost predicate LastSupplier(layers: seq<Value>, p: Path, v: Value, n: Layer) {
    n < |layers| && NodeAt(layers[n], p) == Some(v) && forall m :: n < m < |layers| ==> NodeAt(layers[m], p) == None
  }

  lemma LayerKeepsEntryOk(layers: seq<Value>, s: Value, p: Path, was: seq<Layer>)
    requires EntryOk(layers, p, was)
    ensures EntryOk(layers + [s], p, Entry(Fold(layers), s, was, p, |layers|))
  {
    var more, e := layers + [s], Entry(Fold(layers), s, was, p, |layers|);
    assert more[..|layers|] == layers && Fold(more) == Override(Fold(layers), s);
    hide Fold, Entry, NodeAt, Override, Terminal, LastSupplier, AllSupply;
    EntryNamesNodes(Fold(layers), s, was, p, |layers|);
    var node := NodeAt(Fold(more), p);
    if node.Some? && Terminal(node.value) {
      EntryOfTerminal(Fold(layers), s, was, p, |layers|);
      LastSupplierStays(layers, s, p, node.value, was, e);
    }
    NextLayerSupplies(layers, s, p, was, e);
  }

  lemma NextLayerSupplies(layers: seq<Value>, s: Value, p: Path, was: seq<Layer>, e: seq<Layer>)
    requires Increasing(was) && AllSupply(layers, p, was)
    requires e == was || e == [] || e == was + [|layers|] || e == [|layers|]
    requires e != was && e != [] ==> SuppliesTerminal(s, p)
    ensures Increasing(e) && AllSupply(layers + [s], p, e)
  {
    hide SuppliesTerminal;
  }

  lemma LastSupplierStays(layers: seq<Value>, s: Value, p: Path, v: Value, was: seq<Layer>, e: seq<Layer>)
    requires (NodeAt(s, p) == Some(v) && e != [] && e[|e| - 1] == |layers|)
             || (NodeAt(s, p) == None && e == was && was != [] && LastSupplier(layers, p, v, was[|was| - 1]))
    ensures e != [] && LastSupplier(layers + [s], p, v, e[|e| - 1])
  {
    hide NodeAt;
  }

  // ---- The provenance by paths -------------------------------------------

  /** The entry of a path after the layers were merged one by one. */
  function EntryAfter(layers: seq<Value>, p: Path): seq<Layer> {
    if layers == [] then []
    else
      var last := |layers| - 1;
      Entry(Fold(layers[..last]), layers[last], EntryAfter(layers[..last], p), p, last)
  }

  /** It is right at every path, through replacements that clear everything below. */
  lemma {:induction false} EntryAfterIsRight(layers: seq<Value>, p: Path)
    requires p != []
    ensures EntryOk(layers, p, EntryAfter(layers, p))
  {
    if layers != [] {
      var last := |layers| - 1;
      EntryAfterIsRight(layers[..last], p);
      LayerKeepsEntryOk(layers[..last], layers[last], p, EntryAfter(layers[..last], p));
      assert layers[..last] + [layers[last]] == layers;
    }
    hide Entry, Override, Terminal;
  }

  // ---- The provenance table, by names ------------------------------------

  type Table = map<string, seq<Layer>>

  /** The entry of a name; none is the empty sequence. */
  function Get(t: Table, name: string): seq<Layer> {
    if name in t then t[name] else []
  }

  function Appended(t: Table, name: string, layer: Layer): Table {
    t[name := Get(t, name) + [layer]]
  }

  function Without(t: Table, name: string): Table {
    map n | n in t && !NameBelow(name, n) :: t[n]
  }

  /** The table after clear_descendants and pop, where a node changes between dictionary and other value. */
  function Cleared(t: Table, name: string, clear: bool): Table {
    if clear then Without(t, name) - {name} else t
  }

  function DictOf(v: Value): Value {
    if v.Dict? then v else Dict(map[])
  }

  /** One turn of merge_layer's loop may take the table from `before` to `after`: `layer` merges `v` into what
      there is under the name, `b`. */
  ghost predicate MayMergeKey(before: Table, after: Table, b: Value, v: Value, layer: Layer, name: string)
    decreases v, 1, 0
  {
    if !v.Dict? then after == Appended(Cleared(before, name, b.Dict?), name, layer)
    else
      var cleared := Cleared(before, name, !b.Dict?);
      if v.entries != map[] then MayMergeKeys(cleared, after, DictOf(b), v, v.entries.Keys, layer, name)
      else if DictOf(b).entries == map[] then after == Appended(cleared, name, layer)
      else after == cleared
  }

  /** The turns for the keys in `done`, in some order. */
  ghost predicate MayMergeKeys(before: Table, after: Table, b: Value, s: Value, done: set<string>, layer: Layer,
                               prefix: string)
    requires s.Dict? && done <= s.entries.Keys
    decreases s, 0, |done|
  {
    if done == {} then after == before
    else
      exists key, middle ::
        && key in done && MayMergeKeys(before, middle, b, s, done - {key}, layer, prefix)
        && MayMergeKey(middle, after, Child(b, key), s.entries[key], layer, Name(prefix, key))
  }

  /** The next layer, after the layers before it. */
  ghost predicate MayFollow(before: Table, after: Table, layers: seq<Value>, next: Value)
    requires next.Dict?
  {
    MayMergeKeys(before, after, Fold(layers), next, next.entries.Keys, |layers|, "")
  }

  /** All layers, weakest first. */
  ghost predicate MayResolve(layers: seq<Value>, t: Table)
    requires AllDicts(layers)
  {
    if layers == [] then t == map[]
    else
      var last := |layers| - 1;
      exists middle :: MayResolve(layers[..last], middle) && MayFollow(middle, t, layers[..last], layers[last])
  }

  lemma OneKeyMore(before: Table, middle: Table, after: Table, b: Value, s: Value, done: set<string>, key: string,
                   layer: Layer, prefix: string)
    requires s.Dict? && done <= s.entries.Keys && key in s.entries && key !in done
    requires MayMergeKeys(before, middle, b, s, done, layer, prefix)
    requires MayMergeKey(middle, after, Child(b, key), s.entries[key], layer, Name(prefix, key))
    ensures MayMergeKeys(before, after, b, s, done + {key}, layer, prefix)
  {
    assert done + {key} - {key} == done;
    hide MayMergeKey, Name, Child;
  }

  lemma LastTurn(before: Table, after: Table, b: Value, s: Value, done: set<string>, layer: Layer, prefix: string)
    returns (key: string, middle: Table)
    requires s.Dict? && done <= s.entries.Keys && done != {}
    requires MayMergeKeys(before, after, b, s, done, layer, prefix)
    ensures key in done && MayMergeKeys(before, middle, b, s, done - {key}, layer, prefix)
    ensures MayMergeKey(middle, after, Child(b, key), s.entries[key], layer, Name(prefix, key))
  {
    hide MayMergeKey;
    key, middle :|
      && key in done && MayMergeKeys(before, middle, b, s, done - {key}, layer, prefix)
      && MayMergeKey(middle, after, Child(b, key), s.entries[key], layer, Name(prefix, key));
  }

  // ---- With safe keys the table is the image of the entries by paths ------

  /** No dictionary has a risky key. */
  predicate SafeKeys(v: Value) {
    v.Dict? ==> forall k :: k in v.entries ==> SafeKey(k) && SafeKeys(v.entries[k])
  }

  ghost predicate AllSafe(layers: seq<Value>) {
    forall i :: 0 <= i < |layers| ==> SafeKeys(layers[i])
  }

  function At(t: Table, p: Path): seq<Layer>
    requires p != []
  {
    Get(t, Join(p))
  }

  ghost predicate NamesPath(name: string) {
    exists p: Path :: p != [] && Safe(p) && Join(p) == name
  }

  /** Every name is that of a path, and entries are never empty lists. */
  ghost predicate Named(t: Table) {
    forall name :: name in t ==> NamesPath(name) && t[name] != []
  }

  /** The entries after `layer` merged `s` into the node `b` at path `at`, for the keys of `s` in `done`. */
  ghost predicate Merged(before: Table, after: Table, at: Path, b: Value, s: Value, done: set<string>, layer: Layer)
    requires s.Dict?
  {
    forall p: Path :: p != [] && Safe(p) ==>
      At(after, p) == (
        if Below(at, p) && p[|at|] in done && p[|at|] in s.entries then
          Entry(Child(b, p[|at|]), s.entries[p[|at|]], At(before, p), p[|at| + 1..], layer)
        else At(before, p))
  }

  /** The entries after `layer` merged the value `v` into the node `b` at path `at`. */
  ghost predicate NodeMerged(before: Table, after: Table, at: Path, b: Value, v: Value, layer: Layer) {
    forall p: Path :: p != [] && Safe(p) ==>
      At(after, p) == (if AtOrBelow(at, p) then Entry(b, v, At(before, p), p[|at|..], layer) else At(before, p))
  }

  lemma AtCleared(t: Table, at: Path, clear: bool, p: Path)
    requires at != [] && p != [] && Safe(at) && Safe(p)
    ensures At(Cleared(t, Join(at), clear), p) == if clear && AtOrBelow(at, p) then [] else At(t, p)
  {
    PrefixIsBelow(at, p);
    JoinInjective(at, p);
    if |p| == |at| { assert p[..|at|] == p; }
    hide Join, Safe, NameBelow;
  }

  lemma AtAppended(t: Table, at: Path, layer: Layer, p: Path)
    requires at != [] && p != [] && Safe(at) && Safe(p)
    ensures At(Appended(t, Join(at), layer), p) == if p == at then At(t, p) + [layer] else At(t, p)
  {
    JoinInjective(at, p);
    hide Join, Safe;
  }

  lemma StillNamed(t: Table, at: Path, clear: bool, layer: Layer)
    requires Named(t) && at != [] && Safe(at)
    ensures Named(Cleared(t, Join(at), clear)) && Named(Appended(t, Join(at), layer))
  {
    assert NamesPath(Join(at));
    hide NamesPath, Safe, Join, NameBelow;
  }

  lemma LeafMerged(before: Table, at: Path, b: Value, v: Value, layer: Layer, p: Path)
    requires !v.Dict? && at != [] && p != [] && Safe(at) && Safe(p)
    ensures At(Appended(Cleared(before, Join(at), b.Dict?), Join(at), layer), p) ==
            if AtOrBelow(at, p) then Entry(b, v, At(before, p), p[|at|..], layer) else At(before, p)
  {
    AtCleared(before, at, b.Dict?, p);
    AtAppended(Cleared(before, Join(at), b.Dict?), at, layer, p);
    if |p| == |at| { assert p[..|at|] == p; }
    hide At, Safe, Cleared, Appended;
  }

  lemma EmptyDictMerged(before: Table, at: Path, b: Value, v: Value, layer: Layer, p: Path)
    requires v.Dict? && v.entries == map[] && at != [] && p != [] && Safe(at) && Safe(p)
    ensures var cleared := Cleared(before, Join(at), !b.Dict?);
            At(if DictOf(b).entries == map[] then Appended(cleared, Join(at), layer) else cleared, p) ==
            if AtOrBelow(at, p) then Entry(b, v, At(before, p), p[|at|..], layer) else At(before, p)
  {
    AtCleared(before, at, !b.Dict?, p);
    AtAppended(Cleared(before, Join(at), !b.Dict?), at, layer, p);
    if |p| == |at| { assert p[..|at|] == p; }
    hide At, Safe, Cleared, Appended;
  }

  lemma DictMerged(before: Table, after: Table, at: Path, b: Value, v: Value, layer: Layer, p: Path)
    requires v.Dict? && v.entries != map[] && at != [] && p != [] && Safe(at) && Safe(p)
    requires Merged(Cleared(before, Join(at), !b.Dict?), after, at, DictOf(b), v, v.entries.Keys, layer)
    ensures At(after, p) ==
            if AtOrBelow(at, p) then Entry(b, v, At(before, p), p[|at|..], layer) else At(before, p)
  {
    AtCleared(before, at, !b.Dict?, p);
    if |p| == |at| { assert p[..|at|] == p; }
    if Below(at, p) {
      var q := p[|at|..];
      assert q[0] == p[|at|] && q[1..] == p[|at| + 1..];
      assert Child(DictOf(b), q[0]) == Child(b, q[0]);
    }
    hide At, Safe, Cleared;
  }

  lemma BelowKey(at: Path, key: string, p: Path)
    ensures AtOrBelow(at + [key], p) <==> Below(at, p) && p[|at|] == key
  {
    if |at| < |p| { assert p[..|at| + 1] == p[..|at|] + [p[|at|]]; }
  }

  lemma NextKeyMerged(before: Table, middle: Table, after: Table, at: Path, b: Value, s: Value, done: set<string>,
                      key: string, layer: Layer)
    requires s.Dict? && key in s.entries && key in done
    requires Merged(before, middle, at, b, s, done - {key}, layer)
    requires NodeMerged(middle, after, at + [key], Child(b, key), s.entries[key], layer)
    ensures Merged(before, after, at, b, s, done, layer)
  {
    hide Entry, At, Safe, Child;
    forall p: Path | p != [] && Safe(p)
      ensures At(after, p) ==
              if Below(at, p) && p[|at|] in done && p[|at|] in s.entries then
                Entry(Child(b, p[|at|]), s.entries[p[|at|]], At(before, p), p[|at| + 1..], layer)
              else At(before, p)
    {
      BelowKey(at, key, p);
    }
  }

  lemma {:induction false} KeyIsMerged(before: Table, after: Table, at: Path, b: Value, v: Value, layer: Layer)
    requires at != [] && Safe(at) && SafeKeys(v) && Named(before)
    requires MayMergeKey(before, after, b, v, layer, Join(at))
    ensures NodeMerged(before, after, at, b, v, layer) && Named(after)
    decreases v, 1, 0
  {
    hide MayMergeKeys, Merged, At, Entry, Named, Safe, Join, Cleared, Appended, SafeKeys;
    var cleared := Cleared(before, Join(at), if v.Dict? then !b.Dict? else b.Dict?);
    StillNamed(before, at, if v.Dict? then !b.Dict? else b.Dict?, layer);
    StillNamed(cleared, at, false, layer);
    if v.Dict? && v.entries != map[] {
      KeysAreMerged(cleared, after, at, DictOf(b), v, v.entries.Keys, layer);
    }
    forall p: Path | p != [] && Safe(p)
      ensures At(after, p) == if AtOrBelow(at, p) then Entry(b, v, At(before, p), p[|at|..], layer) else At(before, p)
    {
      if !v.Dict? {
        LeafMerged(before, at, b, v, layer, p);
      } else if v.entries == map[] {
        EmptyDictMerged(before, at, b, v, layer, p);
      } else {
        DictMerged(before, after, at, b, v, layer, p);
      }
    }
  }

  lemma {:induction false} KeysAreMerged(before: Table, after: Table, at: Path, b: Value, s: Value,
                                         done: set<string>, layer: Layer)
    requires Safe(at) && s.Dict? && SafeKeys(s) && done <= s.entries.Keys && Named(before)
    requires MayMergeKeys(before, after, b, s, done, layer, if at == [] then "" else Join(at))
    ensures Merged(before, after, at, b, s, done, layer) && Named(after)
    decreases s, 0, |done|
  {
    hide MayMergeKey, At, Entry, Named, Join, SafeKey, Child;
    if done != {} {
      var prefix := if at == [] then "" else Join(at);
      var key, middle := LastTurn(before, after, b, s, done, layer, prefix);
      KeysAreMerged(before, middle, at, b, s, done - {key}, layer);
      SafeIsNonBlank(at);
      JoinSnoc(at, key);
      KeyIsMerged(middle, after, at + [key], Child(b, key), s.entries[key], layer);
      NextKeyMerged(before, middle, after, at, b, s, done, key, layer);
    }
  }

  lemma SafeIsNonBlank(p: Path)
    requires Safe(p)
    ensures NonBlank(p)
  {
  }

  /** Whatever the order of the keys, the entry of a path is the one by paths, and there are no other entries. */
  lemma {:induction false} TableIsImage(layers: seq<Value>, t: Table)
    requires AllDicts(layers) && AllSafe(layers) && MayResolve(layers, t)
    ensures Named(t) && forall p: Path :: p != [] && Safe(p) ==> At(t, p) == EntryAfter(layers, p)
  {
    if layers != [] {
      hide MayMergeKeys, Named, Safe, SafeKeys, Entry, Fold, Merged, At;
      var last := |layers| - 1;
      var middle :| MayResolve(layers[..last], middle) && MayFollow(middle, t, layers[..last], layers[last]);
      TableIsImage(layers[..last], middle);
      NothingIsSafe();
      KeysAreMerged(middle, t, [], Fold(layers[..last]), layers[last], layers[last].entries.Keys, last);
      FoldIsDict(layers[..last]);
      forall p: Path | p != [] && Safe(p) ensures At(t, p) == EntryAfter(layers, p) {
        LayerMerged(middle, t, Fold(layers[..last]), layers[last], last, p);
      }
    }
  }

  lemma NothingIsSafe()
    ensures Safe([])
  {
  }

  /** A whole layer is merged at the root. */
  lemma LayerMerged(before: Table, after: Table, b: Value, s: Value, layer: Layer, p: Path)
    requires b.Dict? && s.Dict? && p != [] && Safe(p) && Merged(before, after, [], b, s, s.entries.Keys, layer)
    ensures At(after, p) == Entry(b, s, At(before, p), p, layer)
  {
    hide At, Safe;
    assert Below([], p) && p[0..] == p;
  }

  /** So the order in which keys are merged does not matter. */
  lemma TableIsUnique(layers: seq<Value>, t: Table, u: Table)
    requires AllDicts(layers) && AllSafe(layers) && MayResolve(layers, t) && MayResolve(layers, u)
    ensures t == u
  {
    TableIsImage(layers, t);
    TableIsImage(layers, u);
    SameImageSame(layers, t, u);
    SameImageSame(layers, u, t);
    assert t.Keys == u.Keys;
  }

  lemma SameImageSame(layers: seq<Value>, t: Table, u: Table)
    requires Named(t) && forall p: Path :: p != [] && Safe(p) ==> At(t, p) == At(u, p)
    ensures forall name :: name in t ==> name in u && u[name] == t[name]
  {
    forall name | name in t ensures name in u && u[name] == t[name] {
      var p: Path :| p != [] && Safe(p) && Join(p) == name;
      assert At(t, p) == At(u, p);
    }
  }

  // ---- Agreement of the tree with the table ------------------------------

  ghost predicate NamesNode(layers: seq<Value>, name: string) {
    exists p: Path :: p != [] && NodeAt(Fold(layers), p).Some? && Join(p) == name
  }

  /** Every node has the right entry under its name, and there are no other names. */
  ghost predicate Agrees(layers: seq<Value>, t: Table) {
    && (forall p: Path :: p != [] && NodeAt(Fold(layers), p).Some? ==> EntryOk(layers, p, At(t, p)))
    && (forall name :: name in t ==> NamesNode(layers, name))
  }

  lemma {:induction false} OverrideKeepsSafe(b: Value, s: Value)
    requires SafeKeys(b) && SafeKeys(s)
    ensures SafeKeys(Override(b, s))
    decreases s
  {
    hide SafeKey;
    if s.Dict? {
      forall k | k in Override(b, s).entries ensures SafeKey(k) && SafeKeys(Override(b, s).entries[k]) {
        if k in s.entries { OverrideKeepsSafe(Child(b, k), s.entries[k]); }
      }
    }
  }

  lemma {:induction false} FoldIsSafe(layers: seq<Value>)
    requires AllSafe(layers)
    ensures SafeKeys(Fold(layers))
  {
    if layers != [] {
      FoldIsSafe(layers[..|layers| - 1]);
      OverrideKeepsSafe(Fold(layers[..|layers| - 1]), layers[|layers| - 1]);
    }
  }

  lemma {:induction false} NodesAreSafe(v: Value, p: Path)
    requires SafeKeys(v) && NodeAt(v, p).Some?
    ensures Safe(p)
  {
    if p != [] {
      NodesAreSafe(v.entries[p[0]], p[1..]);
      assert p == [p[0]] + p[1..];
    }
  }

  /** With safe keys, every table that can come about agrees with the tree. */
  lemma SafeKeysAgree(layers: seq<Value>, t: Table)
    requires AllDicts(layers) && AllSafe(layers) && MayResolve(layers, t)
    ensures Agrees(layers, t)
  {
    TableIsImage(layers, t);
    FoldIsSafe(layers);
    hide EntryOk, Fold, SafeKeys, AllSafe, EntryAfter, Safe, MayResolve;
    forall p: Path | p != [] && NodeAt(Fold(layers), p).Some? ensures EntryOk(layers, p, At(t, p)) {
      NodesAreSafe(Fold(layers), p);
      EntryAfterIsRight(layers, p);
    }
    forall name | name in t ensures NamesNode(layers, name) {
      var p: Path :| p != [] && Safe(p) && Join(p) == name;
      EntryAfterIsRight(layers, p);
      assert At(t, p) != [];
      EntryHasNode(layers, p, At(t, p));
    }
  }

  lemma EntryHasNode(layers: seq<Value>, p: Path, e: seq<Layer>)
    requires EntryOk(layers, p, e) && e != []
    ensures NodeAt(Fold(layers), p).Some?
  {
  }

  // ---- The resolver ------------------------------------------------------

  const PRECEDENCE: seq<string> := ["defaults", "environment", "lab", "device", "run", "test_override"]

  datatype Source = Absent | NotAnObject | Object(entries: map<string, Value>)

  datatype ConfigError = UnknownLayer | NotObject | BadKeyOrValue

  datatype Resolved = Resolved(values: Value, provenance: map<string, seq<string>>)

  predicate SourceOk(source: Source) {
    !source.NotAnObject? && Clean(EntriesOf(source))
  }

  /** An absent layer counts as an empty one. */
  function EntriesOf(source: Source): Value {
    Dict(if source.Object? then source.entries else map[])
  }

  function SourceOf(sources: map<string, Source>, name: string): Source {
    if name in sources then sources[name] else Absent
  }

  predicate KnownLayer(name: string) {
    name in {"defaults", "environment", "lab", "device", "run", "test_override"}
  }

  /** Only known layers, each an object with clean keys and values, or absent. */
  ghost predicate Usable(sources: map<string, Source>) {
    forall name :: name in sources ==> KnownLayer(name) && SourceOk(sources[name])
  }

  /** What the layer of that name gives. */
  function Given(sources: map<string, Source>, name: string): (v: Value)
    ensures v.Dict?
  {
    EntriesOf(SourceOf(sources, name))
  }

  /** All layers by name, weakest first. */
  function AllLayers(sources: map<string, Source>): (layers: seq<Value>)
    ensures AllDicts(layers)
  {
    [Given(sources, "defaults"), Given(sources, "environment"), Given(sources, "lab"),
     Given(sources, "device"), Given(sources, "run"), Given(sources, "test_override")]
  }

  /** The layers the loop has merged after `n` turns. */
  function Layers(sources: map<string, Source>, n: nat): (layers: seq<Value>)
    requires n <= |PRECEDENCE|
    ensures |layers| == n && AllDicts(layers)
    ensures forall i :: 0 <= i < n ==> layers[i] == Given(sources, PRECEDENCE[i])
  {
    if n == 0 then [] else Layers(sources, n - 1) + [Given(sources, PRECEDENCE[n - 1])]
  }

  /** The provenance with the names of the layers in place of their positions. */
  function ByName(t: Table): map<string, seq<string>> {
    map path | path in t :: LayerNames(t[path])
  }

  function LayerNames(e: seq<Layer>): seq<string> {
    seq(|e|, i requires 0 <= i < |e| => if e[i] < |PRECEDENCE| then PRECEDENCE[e[i]] else "")
  }

  // ---- Which layer wins --------------------------------------------------

  /** The layers that override the one of that name. */
  function Stronger(name: string): set<string> {
    if name == "defaults" then {"environment", "lab", "device", "run", "test_override"}
    else if name == "environment" then {"lab", "device", "run", "test_override"}
    else if name == "lab" then {"device", "run", "test_override"}
    else if name == "device" then {"run", "test_override"}
    else if name == "run" then {"test_override"}
    else {}
  }

  /** The layer has nothing at the path or below, and above it nothing but dictionaries. */
  predicate Silent(layer: Value, p: Path) {
    p != [] && layer.Dict? && (p[0] in layer.entries ==> Silent(layer.entries[p[0]], p[1..]))
  }

  /** The layer supplies something other than a dictionary at the path, and every stronger one is silent. */
  ghost predicate Prevails(sources: map<string, Source>, name: string, p: Path) {
    && KnownLayer(name)
    && NodeAt(Given(sources, name), p).Some? && !NodeAt(Given(sources, name), p).value.Dict?
    && forall other :: other in Stronger(name) ==> Silent(Given(sources, other), p)
  }

  lemma {:induction false} SilentLayerKeeps(b: Value, s: Value, p: Path)
    requires Silent(s, p)
    ensures NodeAt(s, p) == None && NodeAt(Override(b, s), p) == NodeAt(b, p)
    decreases |p|
  {
    OverrideAt(b, s, p[0]);
    if p[0] in s.entries {
      SilentLayerKeeps(Child(b, p[0]), s.entries[p[0]], p[1..]);
      NothingBelow(p[1..]);
    }
  }

  /** The last layer that is not silent wins, if what it has there is no dictionary. */
  lemma {:induction false} LastToSpeakWins(layers: seq<Value>, n: nat, p: Path)
    requires n < |layers| && NodeAt(layers[n], p).Some? && !NodeAt(layers[n], p).value.Dict?
    requires forall m :: n < m < |layers| ==> Silent(layers[m], p)
    ensures NodeAt(Fold(layers), p) == NodeAt(layers[n], p)
  {
    var last := |layers| - 1;
    if n == last {
      StrongestLayerWins(Fold(layers[..last]), layers[last], p);
    } else {
      LastToSpeakWins(layers[..last], n, p);
      SilentLayerKeeps(Fold(layers[..last]), layers[last], p);
    }
  }

  function PositionOf(name: string): (n: nat)
    ensures n < 6
  {
    if name == "defaults" then 0
    else if name == "environment" then 1
    else if name == "lab" then 2
    else if name == "device" then 3
    else if name == "run" then 4
    else 5
  }

  ghost predicate NamedLast(t: map<string, seq<string>>, p: Path, name: string) {
    p != [] && Join(p) in t && t[Join(p)] != [] && t[Join(p)][|t[Join(p)]| - 1] == name
  }

  /** A layer's value is the resolved one unless a stronger layer speaks, */
  lemma NamedLayerWins(sources: map<string, Source>, name: string, p: Path)
    requires Prevails(sources, name, p)
    ensures NodeAt(Fold(AllLayers(sources)), p) == NodeAt(Given(sources, name), p)
    ensures forall e :: EntryOk(AllLayers(sources), p, e) ==> e != [] && e[|e| - 1] == PositionOf(name)
  {
    var layers, n := AllLayers(sources), PositionOf(name);
    assert layers[n] == Given(sources, name) && PRECEDENCE[n] == name;
    forall m | n < m < |layers| ensures Silent(layers[m], p) && NodeAt(layers[m], p) == None {
      assert PRECEDENCE[m] in Stronger(name) && layers[m] == Given(sources, PRECEDENCE[m]);
      SilentLayerKeeps(Dict(map[]), layers[m], p);
    }
    LastToSpeakWins(layers, n, p);
    hide Fold, Silent, AllLayers, AllSupply, Stronger;
  }

  /** and the provenance names it last. */
  lemma WinnerIsNamedLast(sources: map<string, Source>, t: Table, name: string, p: Path)
    requires Prevails(sources, name, p) && Agrees(AllLayers(sources), t)
    ensures NamedLast(ByName(t), p, name)
  {
    hide *;
    WinnerIsNode(sources, name, p);
    NamedLayerWins(sources, name, p);
    AgreesAt(AllLayers(sources), t, p);
    NameOfPosition(t, p, name);
  }

  lemma WinnerIsNode(sources: map<string, Source>, name: string, p: Path)
    requires Prevails(sources, name, p)
    ensures KnownLayer(name)
    ensures p != [] && NodeAt(Given(sources, name), p).Some?
  {
  }

  lemma AgreesAt(layers: seq<Value>, t: Table, p: Path)
    requires Agrees(layers, t) && p != [] && NodeAt(Fold(layers), p).Some?
    ensures EntryOk(layers, p, At(t, p))
  {
    hide EntryOk, Fold, NodeAt, At;
  }

  lemma NameOfPosition(t: Table, p: Path, name: string)
    requires KnownLayer(name)
    requires p != [] && At(t, p) != [] && At(t, p)[|At(t, p)| - 1] == PositionOf(name)
    ensures NamedLast(ByName(t), p, name)
  {
    hide Join;
    assert PRECEDENCE[PositionOf(name)] == name;
  }

  lemma AllWinners(sources: map<string, Source>, t: Table)
    requires MayResolve(AllLayers(sources), t)
    ensures forall name, p :: Prevails(sources, name, p) ==>
              NodeAt(Fold(AllLayers(sources)), p) == NodeAt(Given(sources, name), p)
    ensures AllSafe(AllLayers(sources)) ==>
              && Agrees(AllLayers(sources), t)
              && (forall p: Path :: p != [] && Safe(p) ==> At(t, p) == EntryAfter(AllLayers(sources), p))
              && forall name, p :: Prevails(sources, name, p) ==> NamedLast(ByName(t), p, name)
  {
    hide *;
    forall name, p | Prevails(sources, name, p)
      ensures NodeAt(Fold(AllLayers(sources)), p) == NodeAt(Given(sources, name), p)
    {
      NamedLayerWins(sources, name, p);
    }
    if AllSafe(AllLayers(sources)) {
      SafeKeysAgree(AllLayers(sources), t);
      TableIsImage(AllLayers(sources), t);
      forall name, p | Prevails(sources, name, p) ensures NamedLast(ByName(t), p, name) {
        WinnerIsNamedLast(sources, t, name, p);
      }
    }
  }

  class ConfigurationResolver {
    var provenance: Table

    constructor ()
      ensures provenance == map[]
    {
      provenance := map[];
    }

    method ClearDescendants(path: string)
      modifies this
      ensures provenance == Without(old(provenance), path)
    {
      var names := provenance.Keys;
      while names != {}
        invariant names <= provenance.Keys <= old(provenance).Keys
        invariant forall n :: n in old(provenance) ==> (n in provenance <==> n in names || !NameBelow(path, n))
        invariant forall n :: n in provenance ==> provenance[n] == old(provenance)[n]
      {
        var existing :| existing in names;
        if path + "." <= existing { provenance := provenance - {existing}; }
        names := names - {existing};
      }
    }

    /** provenance.pop(path, None) */
    method Pop(path: string)
      modifies this
      ensures provenance == old(provenance) - {path}
    {
      provenance := provenance - {path};
    }

    /** provenance.setdefault(path, []).append(layer) */
    method Append(path: string, layer: Layer)
      modifies this
      ensures provenance == Appended(old(provenance), path, layer)
    {
      provenance := provenance[path := Get(provenance, path) + [layer]];
    }

    /** One key of merge_layer's loop: `b` is what the key has so far, the result what it gets. */
    method MergeKey(b: Value, value: Value, layer: Layer, path: string) returns (r: Value)
      requires Clean(value)
      modifies this
      ensures r == Override(b, value)
      ensures MayMergeKey(old(provenance), provenance, b, value, layer, path)
      decreases value, 1
    {
      if value.Dict? {
        var current := b;
        if !b.Dict? {
          ClearDescendants(path);
          Pop(path);
          current := Dict(map[]);
        }
        if value.entries != map[] {
          var merged := MergeLayer(current, value, layer, path);
          r := merged.value;
        } else {
          if current.entries == map[] { Append(path, layer); }
          r := current;
        }
        assert r == Override(b, value);
      } else {
        if b.Dict? {
          ClearDescendants(path);
          Pop(path);
        }
        r := value;
        Append(path, layer);
      }
    }

    method MergeLayer(destination: Value, source: Value, layer: Layer,
                      prefix: string) returns (r: Result<Value, ConfigError>)
      requires destination.Dict? && source.Dict?
      modifies this
      ensures r.Success? <==> Clean(source)
      ensures r.Success? ==> r.value == Override(destination, source)
      ensures var all := source.entries.Keys;
              r.Success? ==> MayMergeKeys(old(provenance), provenance, destination, source, all, layer, prefix)
      decreases source, 0
    {
      hide MayMergeKey, MayMergeKeys, Override, Blank;
      NoTurn(provenance, destination, source, layer, prefix);
      var result := destination.entries;
      var todo := source.entries.Keys;
      ghost var done: set<string> := {};
      while todo != {}
        invariant done !! todo && done + todo == source.entries.Keys
        invariant forall k :: k in done ==> !Blank(k) && Clean(source.entries[k])
        invariant result.Keys == destination.entries.Keys + done
        invariant forall k :: k in result ==> result[k] == MergedSoFar(destination, source, done, k)
        invariant MayMergeKeys(old(provenance), provenance, destination, source, done, layer, prefix)
      {
        var key :| key in todo;
        var rawValue := source.entries[key];
        if Blank(key) || !Clean(rawValue) {
          return Failure(BadKeyOrValue);
        }
        var path := if prefix == "" then key else prefix + "." + key;
        ghost var before := provenance;
        assert Child(Dict(result), key) == Child(destination, key);
        var value := MergeKey(Child(Dict(result), key), rawValue, layer, path);
        result := result[key := value];
        OneKeyMore(old(provenance), before, provenance, destination, source, done, key, layer, prefix);
        todo, done := todo - {key}, done + {key};
      }
      assert done == source.entries.Keys;
      AllMerged(destination, source, result);
      r := Success(Dict(result));
    }

    /** The next layer of resolve's loop. */
    method Apply(ghost layers: seq<Value>, merged: Value, source: Source, layer: Layer)
      returns (r: Result<Value, ConfigError>)
      requires layer == |layers| && AllDicts(layers) && merged == Fold(layers) && merged.Dict?
      requires MayResolve(layers, provenance)
      modifies this
      ensures r.Success? <==> SourceOk(source)
      ensures r.Success? ==> r.value == Override(merged, EntriesOf(source)) && r.value.Dict?
      ensures r.Success? ==> MayResolve(layers + [EntriesOf(source)], provenance)
    {
      AbsentIsOk();
      hide Clean, Fold, MayResolve;
      match source
      case NotAnObject => r := Failure(NotObject);
      case Absent =>
        OverrideByEmpty(merged);
        NextLayer(layers, EntriesOf(source), provenance, provenance);
        r := Success(merged);
      case Object(entries) =>
        ghost var before := provenance;
        r := MergeLayer(merged, EntriesOf(source), layer, "");
        if r.Success? { NextLayer(layers, EntriesOf(source), before, provenance); }
    }

    /** The resolved tree is the fold of the layers in their named order, and the table is one their merges may
        lead to; at each path the strongest layer that speaks wins. With safe keys the table agrees with the tree
        and names that layer last. */
    method Resolve(sources: map<string, Source>) returns (r: Result<Resolved, ConfigError>)
      modifies this
      ensures r.Success? <==> Usable(sources)
      ensures r.Success? ==> r.value.values == Fold(AllLayers(sources))
      ensures r.Success? ==>
                forall name, p :: Prevails(sources, name, p) ==>
                  NodeAt(r.value.values, p) == NodeAt(Given(sources, name), p)
      ensures r.Success? ==> MayResolve(AllLayers(sources), provenance) && r.value.provenance == ByName(provenance)
      ensures r.Success? && AllSafe(AllLayers(sources)) ==>
                && Agrees(AllLayers(sources), provenance)
                && (forall p: Path :: p != [] && Safe(p) ==> At(provenance, p) == EntryAfter(AllLayers(sources), p))
                && forall name, p :: Prevails(sources, name, p) ==> NamedLast(r.value.provenance, p, name)
    {
      AbsentIsOk();
      hide Clean, Fold, Override, Layers, SourceOk, MayResolve, Agrees, At, Safe, EntryAfter, Prevails, AllLayers;
      if exists name :: name in sources && name !in PRECEDENCE {
        return Failure(UnknownLayer);
      }
      var merged := Dict(map[]);
      provenance := map[];
      NoLayers(sources);
      for i := 0 to |PRECEDENCE|
        invariant forall j: nat :: j < i ==> SourceOk(SourceOf(sources, PRECEDENCE[j]))
        invariant merged.Dict? && merged == Fold(Layers(sources, i))
        invariant MayResolve(Layers(sources, i), provenance)
      {
        LayersGrow(sources, i);
        var name := PRECEDENCE[i];
        var next := Apply(Layers(sources, i), merged, SourceOf(sources, name), i);
        if next.Failure? { return Failure(next.error); }
        merged := next.value;
      }
      assert Usable(sources) by {
        forall name | name in sources ensures SourceOk(sources[name]) {
          var j: nat :| j < |PRECEDENCE| && PRECEDENCE[j] == name;
          assert SourceOf(sources, PRECEDENCE[j]) == sources[name];
        }
      }
      LayersAreAll(sources);
      AllWinners(sources, provenance);
      r := Success(Resolved(merged, ByName(provenance)));
    }
  }

  /** The order of the loop is that of the names. */
  lemma LayersAreAll(sources: map<string, Source>)
    ensures Layers(sources, |PRECEDENCE|) == AllLayers(sources)
  {
    hide Given;
    assert PRECEDENCE == ["defaults", "environment", "lab", "device", "run", "test_override"];
  }

  /** What destination has under `k` once the keys in `done` are merged. */
  function MergedSoFar(b: Value, s: Value, done: set<string>, k: string): Value {
    if k in done && s.Dict? && k in s.entries then Override(Child(b, k), s.entries[k]) else Child(b, k)
  }

  lemma AllMerged(b: Value, s: Value, result: map<string, Value>)
    requires b.Dict? && s.Dict? && result.Keys == b.entries.Keys + s.entries.Keys
    requires forall k :: k in result ==> result[k] == MergedSoFar(b, s, s.entries.Keys, k)
    ensures Dict(result) == Override(b, s)
  {
    assert result == Override(b, s).entries;
  }

  lemma NoTurn(t: Table, b: Value, s: Value, layer: Layer, prefix: string)
    requires s.Dict?
    ensures MayMergeKeys(t, t, b, s, {}, layer, prefix)
  {
  }

  lemma AbsentIsOk()
    ensures SourceOk(Absent)
  {
  }

  lemma NoLayers(sources: map<string, Source>)
    ensures Fold(Layers(sources, 0)) == Dict(map[]) && MayResolve(Layers(sources, 0), map[])
  {
  }

  lemma LayersGrow(sources: map<string, Source>, n: nat)
    requires n < |PRECEDENCE|
    ensures Layers(sources, n + 1) == Layers(sources, n) + [Given(sources, PRECEDENCE[n])]
    ensures Fold(Layers(sources, n + 1)) ==
            Override(Fold(Layers(sources, n)), Given(sources, PRECEDENCE[n]))
  {
    assert Layers(sources, n + 1)[..n] == Layers(sources, n);
  }

  lemma NextLayer(layers: seq<Value>, s: Value, before: Table, after: Table)
    requires AllDicts(layers) && s.Dict? && MayResolve(layers, before)
    requires MayMergeKeys(before, after, Fold(layers), s, s.entries.Keys, |layers|, "")
    ensures MayResolve(layers + [s], after)
  {
    assert MayFollow(before, after, layers, s);
    hide MayFollow;
    assert (layers + [s])[..|layers|] == layers;
  }

  // ---- Exactly which keys are harmless -----------------------------------

  /** Every key is `k` or safe. */
  predicate KeysAmong(v: Value, k: string) {
    v.Dict? ==> forall key :: key in v.entries ==> (key == k || SafeKey(key)) && KeysAmong(v.entries[key], k)
  }

  /** Among safe keys `k` never spoils the provenance. */
  ghost predicate Harmless(k: string) {
    forall sources, t ::
      Usable(sources) && LayersAmong(AllLayers(sources), k) && MayResolve(AllLayers(sources), t) ==>
        Agrees(AllLayers(sources), t)
  }

  ghost predicate LayersAmong(layers: seq<Value>, k: string) {
    forall i :: 0 <= i < |layers| ==> KeysAmong(layers[i], k)
  }

  lemma {:induction false} AmongSafeIsSafe(v: Value, k: string)
    requires SafeKey(k) && KeysAmong(v, k)
    ensures SafeKeys(v)
  {
    hide SafeKey;
    if v.Dict? {
      forall key | key in v.entries ensures SafeKey(key) && SafeKeys(v.entries[key]) {
        AmongSafeIsSafe(v.entries[key], k);
      }
    }
  }

  lemma SafeIsHarmless(k: string)
    requires SafeKey(k)
    ensures Harmless(k)
  {
    hide Usable, Layers, MayResolve, Agrees, KeysAmong;
    forall sources, t | Usable(sources) && LayersAmong(AllLayers(sources), k) && MayResolve(AllLayers(sources), t)
      ensures Agrees(AllLayers(sources), t)
    {
      var layers := AllLayers(sources);
      forall i | 0 <= i < |layers| ensures SafeKeys(layers[i]) { AmongSafeIsSafe(layers[i], k); }
      SafeKeysAgree(layers, t);
    }
  }

  /** A leaf under the key `k` in the weakest layer, and an empty dictionary under `part` in the next. */
  function Spoiling(k: string, leaf: Value, part: string): map<string, Source> {
    map["defaults" := Object(map[k := leaf]), "environment" := Object(map[part := Dict(map[])])]
  }

  function OneEntry(k: string, v: Value): Value {
    Dict(map[k := v])
  }

  function Empties(n: nat): seq<Value> {
    if n == 0 then [] else Empties(n - 1) + [Dict(map[])]
  }

  lemma SpoilingLayers(k: string, leaf: Value, part: string)
    ensures AllLayers(Spoiling(k, leaf, part)) ==
            [OneEntry(k, leaf), OneEntry(part, Dict(map[]))] + Empties(4)
  {
    assert Empties(1) == [Dict(map[])] && Empties(2) == [Dict(map[]), Dict(map[])];
    assert Empties(4) == [Dict(map[]), Dict(map[]), Dict(map[]), Dict(map[])];
  }

  lemma ResolveSnoc(layers: seq<Value>, s: Value, t: Table)
    requires AllDicts(layers) && s.Dict?
    ensures AllDicts(layers + [s])
    ensures MayResolve(layers + [s], t) <==>
            exists middle :: MayResolve(layers, middle) && MayFollow(middle, t, layers, s)
  {
    hide MayFollow;
    var more := layers + [s];
    assert more[..|more| - 1] == layers && more[|more| - 1] == s;
  }

  /** Layers that are empty leave the table alone. */
  lemma {:induction false} ResolveSkipsEmpty(layers: seq<Value>, n: nat, t: Table)
    requires AllDicts(layers)
    ensures var more := layers + Empties(n);
            && AllDicts(more) && (MayResolve(more, t) <==> MayResolve(layers, t))
            && (layers != [] ==> Fold(more) == Fold(layers))
  {
    if n == 0 {
      assert layers + Empties(n) == layers;
    } else {
      var less := layers + Empties(n - 1);
      ResolveSkipsEmpty(layers, n - 1, t);
      assert layers + Empties(n) == less + [Dict(map[])];
      assert (less + [Dict(map[])])[..|less|] == less;
      ResolveSnoc(less, Dict(map[]), t);
      FoldIsDict(less);
      OverrideByEmpty(Fold(less));
      hide MayResolve, Override;
    }
  }

  /** A layer with one key makes one turn of the loop. */
  lemma OneTurn(before: Table, after: Table, b: Value, s: Value, key: string, layer: Layer, prefix: string)
    requires s.Dict? && s.entries.Keys == {key}
    ensures MayMergeKeys(before, after, b, s, s.entries.Keys, layer, prefix) <==>
            MayMergeKey(before, after, Child(b, key), s.entries[key], layer, Name(prefix, key))
  {
    var done := s.entries.Keys;
    assert done - {key} == {};
    hide MayMergeKey;
    if MayMergeKeys(before, after, b, s, done, layer, prefix) {
      var other, middle := LastTurn(before, after, b, s, done, layer, prefix);
      assert other == key && middle == before;
    }
    if MayMergeKey(before, after, Child(b, key), s.entries[key], layer, Name(prefix, key)) {
      assert MayMergeKeys(before, before, b, s, done - {key}, layer, prefix);
      assert key in done;
    }
  }

  lemma LeafTurn(t: Table, k: string, leaf: Value)
    requires !leaf.Dict?
    ensures MayMergeKey(map[], t, Scalar(Null), leaf, 0, k) <==> t == map[k := [0]]
  {
    assert Get(map[], k) + [0] == [0];
  }

  lemma EmptyDictTurn(t: Table, k: string, part: string)
    requires NameBelow(part, k)
    ensures MayMergeKey(map[k := [0]], t, Scalar(Null), Dict(map[]), 1, part) <==> t == map[part := [1]]
  {
    assert Cleared(map[k := [0]], part, true) == map[];
    assert Get(map[], part) + [1] == [1];
    hide NameBelow;
  }

  /** The leaf gets its entry, */
  lemma SpoilingFirst(first: Value, k: string, t: Table)
    requires first.Dict? && first.entries.Keys == {k} && !first.entries[k].Dict?
    ensures MayResolve([first], t) <==> t == map[k := [0]]
  {
    ResolveSnoc([], first, t);
    assert [] + [first] == [first];
    assert MayResolve([], map[]) && forall m :: MayResolve([], m) ==> m == map[];
    assert MayFollow(map[], t, [], first) <==> t == map[k := [0]] by {
      OneTurn(map[], t, Fold([]), first, k, 0, "");
      LeafTurn(t, k, first.entries[k]);
      assert Child(Fold([]), k) == Scalar(Null);
      hide MayMergeKeys, MayMergeKey, MayResolve, Fold;
    }
    hide MayFollow, MayResolve;
  }

  /** and the empty dictionary clears it. */
  lemma SpoilingTable(first: Value, second: Value, k: string, part: string, t: Table)
    requires first.Dict? && first.entries.Keys == {k} && !first.entries[k].Dict?
    requires second == OneEntry(part, Dict(map[])) && NameBelow(part, k)
    ensures AllDicts([first, second]) && (MayResolve([first, second], t) <==> t == map[part := [1]])
    ensures NodeAt(Fold([first, second]), [k]) == Some(first.entries[k])
  {
    SpoilingFold(first, second, k, part);
    ResolveSnoc([first], second, t);
    assert [first] + [second] == [first, second];
    forall m ensures MayResolve([first], m) <==> m == map[k := [0]] { SpoilingFirst(first, k, m); }
    assert MayFollow(map[k := [0]], t, [first], second) <==> t == map[part := [1]] by {
      OneTurn(map[k := [0]], t, Fold([first]), second, part, 1, "");
      EmptyDictTurn(t, k, part);
      hide MayMergeKeys, MayMergeKey, MayResolve, Fold;
    }
    hide MayFollow, MayResolve, Fold;
  }

  lemma SpoilingFold(first: Value, second: Value, k: string, part: string)
    requires first.Dict? && first.entries.Keys == {k} && second.Dict? && second.entries.Keys == {part} && part != k
    requires !first.entries[k].Dict?
    ensures Child(Fold([first]), part) == Scalar(Null)
    ensures NodeAt(Fold([first, second]), [k]) == Some(first.entries[k])
  {
    assert [first][..0] == [] && [first, second][..1] == [first];
    OverrideAt(Dict(map[]), first, k);
    OverrideAt(Dict(map[]), first, part);
    OverrideAt(Fold([first]), second, k);
    hide Override;
  }

  /** The entry of a risky key is lost when a stronger layer has an empty dictionary under a safe part of it,
      whatever the leaf: in every table that can come about, the only entry is that of the dictionary. */
  lemma RiskyKeyLosesEntry(k: string, leaf: Value, part: string)
    requires !Blank(k) && SafeKey(part) && NameBelow(part, k) && Clean(leaf) && !leaf.Dict?
    ensures var sources := Spoiling(k, leaf, part);
            && Usable(sources) && LayersAmong(AllLayers(sources), k)
            && (forall t :: MayResolve(AllLayers(sources), t) <==> t == map[part := [1]])
            && NodeAt(Fold(AllLayers(sources)), [k]) == Some(leaf)
            && !Agrees(AllLayers(sources), map[part := [1]])
  {
    var sources := Spoiling(k, leaf, part);
    var two := [OneEntry(k, leaf), OneEntry(part, Dict(map[]))];
    SpoilingLayers(k, leaf, part);
    SpoilingUsable(k, leaf, part);
    forall t ensures MayResolve(AllLayers(sources), t) <==> t == map[part := [1]] {
      ResolveSkipsEmpty(two, 4, t);
      SpoilingTable(OneEntry(k, leaf), OneEntry(part, Dict(map[])), k, part, t);
      hide MayResolve;
    }
    ResolveSkipsEmpty(two, 4, map[]);
    SpoilingTable(OneEntry(k, leaf), OneEntry(part, Dict(map[])), k, part, map[]);
    var t: Table := map[part := [1]];
    assert At(t, [k]) == [];
    assert !EntryOk(AllLayers(sources), [k], At(t, [k]));
    hide Fold, MayResolve, EntryOk;
  }

  lemma SpoilingUsable(k: string, leaf: Value, part: string)
    requires !Blank(k) && SafeKey(part) && Clean(leaf) && !leaf.Dict?
    ensures Usable(Spoiling(k, leaf, part)) && LayersAmong(AllLayers(Spoiling(k, leaf, part)), k)
  {
    hide Blank, Risky, Layers;
    SpoilingLayers(k, leaf, part);
    var sources := Spoiling(k, leaf, part);
    forall name | name in sources ensures SourceOk(sources[name]) {
      assert Clean(Dict(map[]));
    }
    assert KeysAmong(OneEntry(k, leaf), k) && KeysAmong(OneEntry(part, Dict(map[])), k) && KeysAmong(Dict(map[]), k);
  }

  /** A key is harmless among safe keys exactly where it has no dot after something visible. */
  lemma HarmlessExactly(k: string)
    requires !Blank(k)
    ensures Harmless(k) <==> !Risky(k)
  {
    if Risky(k) {
      var part := SafePart(k);
      RiskyKeyLosesEntry(k, Scalar(Null), part);
      hide Risky, Agrees, MayResolve, Usable, LayersAmong, Fold;
      var sources := Spoiling(k, Scalar(Null), part);
      assert MayResolve(AllLayers(sources), map[part := [1]]);
    } else {
      SafeIsHarmless(k);
      hide Harmless;
    }
  }
}
