/** Unix paths as the standard library sees them. A path is stored as bytes, but
    equality and hashing go by its components, so a table keyed by paths is keyed
    by `KeyOf`. */
module Paths {
  import opened Prelude
  import opened Utf8
  import opened VfsCore
  import opened Splitting

  const SLASH: byte := 47
  const DOT: byte := 46

  type Name = seq<byte>

  datatype Key = Key(rooted: bool, comps: seq<Name>)

  const ROOT: Path := [SLASH]
  const ROOT_KEY := Key(true, [])

  predicate Kept(n: Name) { n != [] && n != [DOT] }

  function KeyOf(p: Path): Key {
    var rooted := p != [] && p[0] == SLASH;
    var leadingDot := !rooted && p != [] && p[0] == DOT && (|p| == 1 || p[1] == SLASH);
    Key(rooted, (if leadingDot then [[DOT]] else []) + Filter(Kept, Split(p, SLASH)))
  }

  /** `PathBuf::push`. */
  function Push(p: Path, name: Name): Path {
    if name != [] && name[0] == SLASH then name
    else if p == [] || p[|p| - 1] == SLASH then p + name
    else p + [SLASH] + name
  }

  /** The components of `Path::parent`. */
  function Parent(k: Key): Option<Key> {
    if k.comps == [] then None else Some(k.(comps := k.comps[..|k.comps| - 1]))
  }

  /** `Path::file_name`: absent when the last component is not a plain name. */
  function FileName(k: Key): Option<Name> {
    if k.comps == [] || !Plain(k.comps[|k.comps| - 1]) then None else Some(k.comps[|k.comps| - 1])
  }

  /** A name the kernel can pass for a directory entry. */
  predicate Plain(n: Name) {
    n != [] && SLASH !in n && n != [DOT] && n != [DOT, DOT]
  }

  function Child(k: Key, n: Name): Key { k.(comps := k.comps + [n]) }

  /** Joining a plain name onto an absolute path adds exactly one component, and
      taking the parent and the last component undoes it. */
  lemma PushAddsComponent(p: Path, n: Name)
    requires KeyOf(p).rooted && n != [] && 47 !in n && n != [46] && n != [46, 46]
    ensures KeyOf(Push(p, n)) == Key(true, KeyOf(p).comps + [n])
    ensures Parent(KeyOf(Push(p, n))) == Some(KeyOf(p))
    ensures FileName(KeyOf(Push(p, n))) == Some(n)
  {
    SplitSingle(n, SLASH);
    assert Filter(Kept, [n]) == [n] + Filter(Kept, []);
    if p[|p| - 1] == SLASH {
      var a := p[..|p| - 1];
      assert p == a + [SLASH] + [];
      assert p + n == a + [SLASH] + n;
      SplitConcat(a, [], SLASH);
      SplitConcat(a, n, SLASH);
      FilterConcat(Kept, Split(a, SLASH), [[]]);
      FilterConcat(Kept, Split(a, SLASH), [n]);
      assert Filter(Kept, [[]]) == [];
    } else {
      SplitConcat(p, n, SLASH);
      FilterConcat(Kept, Split(p, SLASH), [n]);
    }
    var k := KeyOf(p);
    assert Child(k, n).comps[..|k.comps|] == k.comps;
  }

  lemma RootKey()
    ensures KeyOf(ROOT) == ROOT_KEY
  {
    assert Split(ROOT, SLASH) == [[], []];
    assert Filter(Kept, [[], []]) == [];
  }

  lemma PushKeepsUtf8(p: Path, n: Name)
    requires ValidUtf8(p) && ValidUtf8(n)
    ensures ValidUtf8(Push(p, n))
  {
    ValidConcat(p, n);
    ValidConcat(p, [SLASH]);
    ValidConcat(p + [SLASH], n);
  }

  /** Empty components and single dots do not count, wherever they are, and neither does
      a slash at the end. */
  lemma RedundantParts(a: Path, b: Path)
    requires a != []
    ensures KeyOf(a + [47, 47] + b) == KeyOf(a + [47] + b)
    ensures KeyOf(a + [47, 46, 47] + b) == KeyOf(a + [47] + b)
    ensures KeyOf(a + [47]) == KeyOf(a) && KeyOf(a + [47, 46]) == KeyOf(a)
  {
    hide KeyOf, Filter, Split;
    TwoParts(a, b);
    TwoParts(a, [SLASH] + b);
    TwoParts(a, [DOT, SLASH] + b);
    TwoParts(a, []);
    TwoParts(a, [DOT]);
    assert a + [47, 47] + b == a + [SLASH] + ([SLASH] + b);
    assert a + [47, 46, 47] + b == a + [SLASH] + ([DOT, SLASH] + b);
    assert a + [47] == a + [SLASH] + [] && a + [47, 46] == a + [SLASH] + [DOT];
    LeadingPart([], b);
    LeadingPart([DOT], b);
    assert [] + [SLASH] + b == [SLASH] + b && [DOT] + [SLASH] + b == [DOT, SLASH] + b;
    OnlyPart([]);
    OnlyPart([DOT]);
    assert KeyOf(a).comps + [] == KeyOf(a).comps;
  }

  lemma OnlyPart(n: Name)
    requires SLASH !in n && !Kept(n)
    ensures Filter(Kept, Split(n, SLASH)) == []
  {
    SplitSingle(n, SLASH);
  }

  /** A slash separates components. */
  lemma TwoParts(a: Path, b: Path)
    requires a != []
    ensures KeyOf(a + [SLASH] + b) == KeyOf(a).(comps := KeyOf(a).comps + Filter(Kept, Split(b, SLASH)))
  {
    SplitConcat(a, b, SLASH);
    FilterConcat(Kept, Split(a, SLASH), Split(b, SLASH));
    hide Filter, Split;
  }

  lemma LeadingPart(n: Name, b: Path)
    requires SLASH !in n && !Kept(n)
    ensures Filter(Kept, Split(n + [SLASH] + b, SLASH)) == Filter(Kept, Split(b, SLASH))
  {
    SplitConcat(n, b, SLASH);
    SplitSingle(n, SLASH);
    FilterFirst(Kept, n, Split(b, SLASH));
  }

  /** Except at the front of a relative path, where a dot is a component of its own. */
  lemma LeadingDotCounts(b: Path)
    ensures KeyOf([46, 47] + b) == Key(false, [[46]] + KeyOf([47] + b).comps)
  {
    LeadingPart([DOT], b);
    LeadingPart([], b);
    assert [] + [SLASH] + b == [SLASH] + b && [DOT] + [SLASH] + b == [DOT, SLASH] + b;
    hide Filter, Split;
  }

  /** The last component names the file, unless it is "..". */
  lemma FileNameIs(k: Key, n: Name)
    requires n != [] && 47 !in n && n != [46]
    ensures FileName(Child(k, n)) == if n == [46, 46] then None else Some(n)
  {
  }
}
