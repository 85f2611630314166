/** The kernel command line: the host prints mounts and extra arguments into one
    line; the guest's init script finds them again by shell field splitting. */
module Cmdline {
  import opened Prelude
  import opened Splitting

  type Mount = (string, string)

  const MOUNTS_KEY := "tokimo.mounts="
  const SCRIPT_KEY := "tokimo.script="
  const SHELL_WORD := "tokimo.shell=1"

  // ---------------------------------------------------------------- the host's side

  predicate IsScript(s: string) { SCRIPT_KEY <= s }

  predicate NotScript(s: string) { !IsScript(s) }

  function Pairs(mounts: seq<Mount>): seq<string> {
    if mounts == [] then [] else [mounts[0].0 + ":" + mounts[0].1] + Pairs(mounts[1..])
  }

  function FixedParts(hasRootfs: bool): seq<string> {
    ["console=ttyS0", "panic=-1", "quiet", "loglevel=3"]
      + if hasRootfs then ["root=/dev/vda", "rootfstype=squashfs", "ro"] else []
  }

  function MountParts(mounts: seq<Mount>): seq<string> {
    if mounts == [] then [] else [MOUNTS_KEY + Join(Pairs(mounts), ",")]
  }

  /** Extra arguments keep their order, except that scripts go last. */
  function Parts(extra: seq<string>, mounts: seq<Mount>, hasRootfs: bool): seq<string> {
    FixedParts(hasRootfs) + MountParts(mounts) + Filter(NotScript, extra) + Filter(IsScript, extra)
  }

  method PrintPairs(mounts: seq<Mount>) returns (pairs: seq<string>)
    ensures pairs == Pairs(mounts)
  {
    pairs := [];
    for i := 0 to |mounts|
      invariant pairs + Pairs(mounts[i..]) == Pairs(mounts)
    {
      var pair := mounts[i].0 + ":" + mounts[i].1;
      assert Pairs(mounts[i..]) == [pair] + Pairs(mounts[i + 1..]);
      pairs := pairs + [pair];
    }
  }

  method Partition(extra: seq<string>) returns (script: seq<string>, rest: seq<string>)
    ensures script == Filter(IsScript, extra) && rest == Filter(NotScript, extra)
  {
    script, rest := [], [];
    assert Filter(NotScript, extra[..0]) == [] && Filter(IsScript, extra[..0]) == [];
    hide Filter;
    for i := 0 to |extra|
      invariant rest == Filter(NotScript, extra[..i])
      invariant script == Filter(IsScript, extra[..i])
    {
      assert extra[..i + 1] == extra[..i] + [extra[i]];
      FilterOneMore(IsScript, extra[..i], extra[i]);
      FilterOneMore(NotScript, extra[..i], extra[i]);
      if IsScript(extra[i]) {
        script := script + [extra[i]];
      } else {
        rest := rest + [extra[i]];
      }
    }
    assert extra[..|extra|] == extra;
  }

  /** `build_cmdline`. */
  method BuildCmdline(extra: seq<string>, mounts: seq<Mount>, hasRootfs: bool) returns (line: string)
    ensures line == Join(Parts(extra, mounts, hasRootfs), " ")
  {
    var parts := ["console=ttyS0", "panic=-1", "quiet", "loglevel=3"];
    if hasRootfs {
      parts := parts + ["root=/dev/vda", "rootfstype=squashfs", "ro"];
    }
    assert parts == FixedParts(hasRootfs);
    hide FixedParts, Join, Pairs, Filter;
    if mounts != [] {
      var pairs := PrintPairs(mounts);
      parts := parts + [MOUNTS_KEY + Join(pairs, ",")];
    }
    assert parts == FixedParts(hasRootfs) + MountParts(mounts);
    var script, rest := Partition(extra);
    parts := parts + rest + script;
    return Join(parts, " ");
  }

  /** Nothing is dropped or added by the partition. */
  lemma {:induction false} PartitionKeepsEverything(extra: seq<string>)
    ensures multiset(Filter(NotScript, extra) + Filter(IsScript, extra)) == multiset(extra)
  {
    if extra != [] {
      PartitionKeepsEverything(extra[1..]);
      assert extra == [extra[0]] + extra[1..];
    }
  }

  // ---------------------------------------------------------------- the guest's side

  predicate Blank(c: char) { c == ' ' || c == '\t' || c == '\n' }

  /** Blanks all delimit alike. */
  function Spaced(s: string): string {
    if s == [] then [] else [if Blank(s[0]) then ' ' else s[0]] + Spaced(s[1..])
  }

  predicate NonEmpty(s: string) { s != "" }

  /** The fields of an unquoted expansion with the default separators. */
  function Words(s: string): seq<string> { Filter(NonEmpty, Split(Spaced(s), ' ')) }

  /** The argument of the last mounts word, or "". */
  function MountsArg(words: seq<string>): string {
    if words == [] then ""
    else
      var w := words[|words| - 1];
      if IsMounts(w) then w[|MOUNTS_KEY|..] else MountsArg(words[..|words| - 1])
  }

  predicate IsMounts(w: string) { MOUNTS_KEY <= w }

  /** What follows the last occurrence of the script key, if there is one: the longest
      leading match wins. */
  function AfterLastKey(line: string): Option<string> {
    if line == "" then None
    else
      match AfterLastKey(line[1..])
      case Some(s) => Some(s)
      case None => if SCRIPT_KEY <= line then Some(line[|SCRIPT_KEY|..]) else None
  }

  /** The lines the editor prints, joined; the shell strips newlines at the end. */
  function PrintedLines(lines: seq<string>): seq<string> {
    if lines == [] then []
    else
      match AfterLastKey(lines[0])
      case Some(s) => [s] + PrintedLines(lines[1..])
      case None => PrintedLines(lines[1..])
  }

  function StripNewlines(s: string): string {
    if s != "" && s[|s| - 1] == '\n' then StripNewlines(s[..|s| - 1]) else s
  }

  function ScriptOf(text: string): string {
    StripNewlines(Join(PrintedLines(Split(text, '\n')), "\n"))
  }

  /** Fields with `,` as the only separator: it ends a field, so none follows the last. */
  function CommaFields(arg: string): seq<string> {
    var fs := Split(arg, ',');
    if fs[|fs| - 1] == "" then fs[..|fs| - 1] else fs
  }

  /** `IFS=: read -r tag mpath rest`. */
  function ReadPair(pair: string): Mount {
    var fs := Split(pair, ':');
    (fs[0], if |fs| > 1 then fs[1] else "")
  }

  function ReadPairs(pairs: seq<string>): seq<Mount> {
    if pairs == [] then [] else [ReadPair(pairs[0])] + ReadPairs(pairs[1..])
  }

  function MountsOf(text: string): seq<Mount> { ReadPairs(CommaFields(MountsArg(Words(text)))) }

  predicate ShellOf(text: string) { SHELL_WORD in Words(text) }

  /** The loop over the words of the command line. */
  method ScanWords(words: seq<string>) returns (mountsArg: string, shell: bool)
    ensures mountsArg == MountsArg(words) && shell == (SHELL_WORD in words)
  {
    ShellIsNotMounts();
    mountsArg, shell := "", false;
    hide IsMounts;
    for i := 0 to |words|
      invariant mountsArg == MountsArg(words[..i])
      invariant shell == (SHELL_WORD in words[..i])
    {
      var w := words[i];
      assert words[..i + 1] == words[..i] + [w];
      if IsMounts(w) {
        MountsIsLong(w);
        mountsArg := w[|MOUNTS_KEY|..];
      } else if w == SHELL_WORD {
        shell := true;
      }
    }
    assert words[..|words|] == words;
  }

  lemma MountsIsLong(w: string)
    requires IsMounts(w)
    ensures |w| >= |MOUNTS_KEY|
  {
  }

  lemma ShellIsNotMounts()
    ensures !IsMounts(SHELL_WORD)
  {
    assert MOUNTS_KEY[7] != SHELL_WORD[7];
  }

  /** The loop over the mount pairs; each starts one agent. */
  method ScanPairs(pairs: seq<string>) returns (mounts: seq<Mount>)
    ensures mounts == ReadPairs(pairs)
  {
    hide ReadPair;
    mounts := [];
    for i := 0 to |pairs|
      invariant mounts + ReadPairs(pairs[i..]) == ReadPairs(pairs)
    {
      assert ReadPairs(pairs[i..]) == [ReadPair(pairs[i])] + ReadPairs(pairs[i + 1..]);
      mounts := mounts + [ReadPair(pairs[i])];
    }
  }

  /** What the init script acts on: the agents it starts, and the two options. */
  method ParseCmdline(text: string) returns (mounts: seq<Mount>, shell: bool, script: string)
    ensures mounts == MountsOf(text) && shell == ShellOf(text) && script == ScriptOf(text)
  {
    hide Words, ReadPair;
    var mountsArg;
    mountsArg, shell := ScanWords(Words(text));
    script := ScriptOf(text);
    mounts := [];
    if mountsArg != "" {
      mounts := ScanPairs(CommaFields(mountsArg));
    }
  }

  // ---------------------------------------------------------------- words

  lemma {:induction false} SpacedConcat(a: string, b: string)
    ensures Spaced(a + b) == Spaced(a) + Spaced(b)
  {
    if a == "" {
      assert a + b == b;
    } else {
      var c := [if Blank(a[0]) then ' ' else a[0]];
      assert (a + b)[1..] == a[1..] + b;
      assert Spaced(a + b) == c + Spaced(a[1..] + b);
      assert Spaced(a) == c + Spaced(a[1..]);
      hide Spaced;
      SpacedConcat(a[1..], b);
      Regroup(c, Spaced(a[1..]), Spaced(b));
    }
  }

  /** A blank between two texts separates their words. */
  lemma WordsConcat(a: string, c: char, b: string)
    requires Blank(c)
    ensures Words(a + [c] + b) == Words(a) + Words(b)
  {
    SpacedConcat(a + [c], b);
    SpacedConcat(a, [c]);
    assert Spaced([c]) == [' '];
    SplitConcat(Spaced(a), Spaced(b), ' ');
    FilterConcat(NonEmpty, Split(Spaced(a), ' '), Split(Spaced(b), ' '));
  }

  predicate NoBlank(s: string) { forall c <- s :: !Blank(c) }

  lemma {:induction false} SpacedNoBlank(s: string)
    requires NoBlank(s)
    ensures Spaced(s) == s
  {
    if s != "" {
      assert forall c <- s[1..] :: c in s;
      SpacedNoBlank(s[1..]);
    }
  }

  /** A text without blanks is one word. */
  lemma WordAlone(w: string)
    requires NoBlank(w) && w != ""
    ensures Words(w) == [w]
  {
    SpacedNoBlank(w);
    assert ' ' !in w;
    SplitSingle(w, ' ');
    assert Filter(NonEmpty, [w]) == [w] + Filter(NonEmpty, []);
  }

  function AllWords(parts: seq<string>): seq<string> {
    if parts == [] then [] else Words(parts[0]) + AllWords(parts[1..])
  }

  lemma {:induction false} WordsJoin(parts: seq<string>)
    ensures Words(Join(parts, " ")) == AllWords(parts)
  {
    if |parts| == 1 {
      assert AllWords(parts) == Words(parts[0]) + AllWords([]);
    } else if |parts| > 1 {
      WordsJoin(parts[1..]);
      WordsConcat(parts[0], ' ', Join(parts[1..], " "));
    }
  }

  lemma {:induction false} AllWordsConcat(a: seq<string>, b: seq<string>)
    ensures AllWords(a + b) == AllWords(a) + AllWords(b)
  {
    hide Words;
    if a == [] {
      assert a + b == b;
    } else {
      assert (a + b)[0] == a[0] && (a + b)[1..] == a[1..] + b;
      AllWordsConcat(a[1..], b);
    }
  }

  /** A word the init script would act on. */
  predicate Reserved(w: string) { IsMounts(w) || w == SHELL_WORD }

  predicate Unreserved(words: seq<string>) { forall w <- words :: !Reserved(w) }

  lemma {:induction false} MountsArgSkips(a: seq<string>, b: seq<string>)
    requires forall w <- b :: !IsMounts(w)
    ensures MountsArg(a + b) == MountsArg(a)
  {
    if b == [] {
      assert a + b == a;
    } else {
      var n := |b| - 1;
      assert b[n] in b && forall w <- b[..n] :: w in b;
      MountsArgSkips(a, b[..n]);
      assert (a + b)[..|a + b| - 1] == a + b[..n];
    }
  }

  // ---------------------------------------------------------------- mounts round trip

  /** The line the guest reads: the printed one, the shell option if asked for, and
      the newline the kernel ends it with. */
  function Booted(extra: seq<string>, mounts: seq<Mount>, hasRootfs: bool, interactive: bool): string {
    Line(extra, mounts, hasRootfs, interactive) + "\n"
  }

  function Line(extra: seq<string>, mounts: seq<Mount>, hasRootfs: bool, interactive: bool): string {
    Join(Parts(extra, mounts, hasRootfs), " ") + if interactive then " " + SHELL_WORD else ""
  }

  predicate CleanChar(c: char) { c != ' ' && c != '\t' && c != '\n' && c != ',' && c != ':' }

  predicate CleanText(s: string) { forall c <- s :: CleanChar(c) }

  predicate Clean(mounts: seq<Mount>) {
    forall m <- mounts :: CleanText(m.0) && CleanText(m.1)
  }

  predicate PairText(s: string) { s != "" && NoBlank(s) && ',' !in s }

  lemma {:induction false} PairsRoundTrip(mounts: seq<Mount>)
    requires Clean(mounts)
    ensures ReadPairs(Pairs(mounts)) == mounts && |Pairs(mounts)| == |mounts|
    ensures forall p <- Pairs(mounts) :: PairText(p)
  {
    if mounts != [] {
      var (tag, path) := mounts[0];
      assert mounts[0] in mounts && forall m <- mounts[1..] :: m in mounts;
      PairsRoundTrip(mounts[1..]);
      assert ReadPair(tag + ":" + path) == (tag, path) by {
        SplitSingle(tag, ':');
        SplitSingle(path, ':');
        SplitConcat(tag, path, ':');
      }
      PairIsText(tag, path);
    }
  }

  lemma PairIsText(tag: string, path: string)
    requires CleanText(tag) && CleanText(path)
    ensures PairText(tag + ":" + path)
  {
  }

  lemma {:induction false} JoinIsNoBlank(ps: seq<string>)
    requires forall p <- ps :: PairText(p)
    ensures NoBlank(Join(ps, ",")) && (ps != [] ==> Join(ps, ",") != "")
  {
    if ps != [] {
      assert ps[0] in ps && forall p <- ps[1..] :: p in ps;
      JoinIsNoBlank(ps[1..]);
    }
  }

  lemma CommaFieldsRoundTrip(ps: seq<string>)
    requires ps != [] && forall p <- ps :: PairText(p)
    ensures CommaFields(Join(ps, ",")) == ps
  {
    assert forall p <- ps :: ',' !in p;
    SplitJoin(ps, ',');
    assert ps[|ps| - 1] in ps;
  }

  /** What is read back never holds a separator, so only clean mounts can come back. */
  lemma {:induction false} ReadPairsAreClean(ps: seq<string>)
    requires forall p <- ps :: NoBlank(p) && ',' !in p
    ensures Clean(ReadPairs(ps))
  {
    if ps != [] {
      assert ps[0] in ps && forall p <- ps[1..] :: p in ps;
      ReadPairsAreClean(ps[1..]);
      SplitPieces(ps[0], ':');
      var fs := Split(ps[0], ':');
      assert fs[0] in fs && (|fs| > 1 ==> fs[1] in fs);
      assert CleanText(ReadPair(ps[0]).0) && CleanText(ReadPair(ps[0]).1);
      hide ReadPair, CleanText;
    }
  }

  lemma {:induction false} WordsHaveNoBlank(s: string)
    ensures forall w <- Words(s) :: NoBlank(w)
  {
    SplitPieces(Spaced(s), ' ');
    SpacedChars(s);
    FilterSubset(NonEmpty, Split(Spaced(s), ' '));
  }

  lemma {:induction false} SpacedChars(s: string)
    ensures forall c <- Spaced(s) :: c == ' ' || !Blank(c)
  {
    if s != "" { SpacedChars(s[1..]); }
  }

  lemma {:induction false} MountsArgNoBlank(words: seq<string>)
    requires forall w <- words :: NoBlank(w)
    ensures NoBlank(MountsArg(words))
  {
    if words != [] {
      var n := |words| - 1;
      assert words[n] in words && forall w <- words[..n] :: w in words;
      MountsArgNoBlank(words[..n]);
    }
  }

  lemma MountsOfAreClean(text: string)
    ensures Clean(MountsOf(text))
  {
    hide Words, MountsArg;
    WordsHaveNoBlank(text);
    MountsArgNoBlank(Words(text));
    var arg := MountsArg(Words(text));
    SplitPieces(arg, ',');
    assert forall p <- CommaFields(arg) :: p in Split(arg, ',');
    ReadPairsAreClean(CommaFields(arg));
  }

  /** A reserved word begins with the letter t; the fixed ones do not. */
  predicate Harmless(w: string) { w != "" && NoBlank(w) && w[0] != 't' }

  lemma HarmlessWords()
    ensures Harmless("console=ttyS0") && Harmless("panic=-1") && Harmless("quiet") && Harmless("loglevel=3")
    ensures Harmless("root=/dev/vda") && Harmless("rootfstype=squashfs") && Harmless("ro")
  {
  }

  lemma FixedWords(hasRootfs: bool)
    ensures AllWords(FixedParts(hasRootfs)) == FixedParts(hasRootfs)
    ensures Unreserved(FixedParts(hasRootfs))
  {
    HarmlessWords();
    HarmlessIsUnreserved();
    assert forall w <- FixedParts(hasRootfs) :: Harmless(w);
    hide FixedParts, Reserved;
    AllWordsAlone(FixedParts(hasRootfs));
  }

  lemma HarmlessIsUnreserved()
    ensures forall w: string :: Harmless(w) ==> !Reserved(w)
  {
    hide NoBlank;
    assert MOUNTS_KEY[0] == 't' && SHELL_WORD[0] == 't';
  }

  lemma {:induction false} AllWordsAlone(parts: seq<string>)
    requires forall p <- parts :: NoBlank(p) && p != ""
    ensures AllWords(parts) == parts
  {
    if parts != [] {
      assert parts[0] in parts && forall p <- parts[1..] :: p in parts;
      AllWordsAlone(parts[1..]);
      WordAlone(parts[0]);
      hide Words;
    }
  }

  /** The words of a selection of arguments are among the words of all of them. */
  lemma {:induction false} WordsOfFilter(keep: string -> bool, extra: seq<string>)
    ensures forall w <- AllWords(Filter(keep, extra)) :: w in AllWords(extra)
  {
    if extra != [] {
      hide Words;
      assert forall w <- AllWords(extra[1..]) :: w in AllWords(extra);
      WordsOfFilter(keep, extra[1..]);
      AllWordsConcat(if keep(extra[0]) then [extra[0]] else [], Filter(keep, extra[1..]));
      assert AllWords([extra[0]]) == Words(extra[0]) + AllWords([]);
      assert forall w <- Words(extra[0]) :: w in AllWords(extra);
    }
  }

  lemma PartsWords(extra: seq<string>, mounts: seq<Mount>, hasRootfs: bool)
    ensures Words(Join(Parts(extra, mounts, hasRootfs), " ")) ==
      FixedParts(hasRootfs) + AllWords(MountParts(mounts))
        + (AllWords(Filter(NotScript, extra)) + AllWords(Filter(IsScript, extra)))
  {
    hide Words, FixedParts, MountParts, Filter, Join, AllWords;
    WordsJoin(Parts(extra, mounts, hasRootfs));
    var a, b := FixedParts(hasRootfs), MountParts(mounts);
    var c, d := Filter(NotScript, extra), Filter(IsScript, extra);
    AllWordsConcat(a + b + c, d);
    AllWordsConcat(a + b, c);
    AllWordsConcat(a, b);
    FixedWords(hasRootfs);
    assert (a + AllWords(b)) + AllWords(c) + AllWords(d) == a + AllWords(b) + (AllWords(c) + AllWords(d));
  }

  /** The words the guest sees, in order. */
  lemma BootedWords(extra: seq<string>, mounts: seq<Mount>, hasRootfs: bool, interactive: bool)
    ensures Words(Booted(extra, mounts, hasRootfs, interactive)) ==
      FixedParts(hasRootfs) + AllWords(MountParts(mounts))
        + (AllWords(Filter(NotScript, extra)) + AllWords(Filter(IsScript, extra)))
        + (if interactive then [SHELL_WORD] else [])
  {
    hide Words, FixedParts, MountParts, Filter, Parts, Join, AllWords;
    PartsWords(extra, mounts, hasRootfs);
    var line := Join(Parts(extra, mounts, hasRootfs), " ");
    var whole := Line(extra, mounts, hasRootfs, interactive);
    NoWords();
    assert Booted(extra, mounts, hasRootfs, interactive) == whole + ['\n'] + "";
    WordsConcat(whole, '\n', "");
    if interactive {
      WordsConcat(line, ' ', SHELL_WORD);
      assert whole == line + [' '] + SHELL_WORD;
      WordAlone(SHELL_WORD);
    } else {
      assert whole == line;
    }
  }

  lemma NoWords()
    ensures Words("") == []
  {
    assert Split(Spaced(""), ' ') == [""];
  }

  /** The words on both sides are these. */
  lemma KeyWords(w: string)
    ensures IsMounts(w) <==> |w| >= 14 && w[..14] == "tokimo.mounts="
    ensures IsScript(w) <==> |w| >= 14 && w[..14] == "tokimo.script="
    ensures Reserved(w) <==> IsMounts(w) || w == "tokimo.shell=1"
  {
  }

  lemma {:induction false} PairsAt(mounts: seq<Mount>, i: nat)
    requires i < |mounts|
    ensures |Pairs(mounts)| == |mounts| && Pairs(mounts)[i] == mounts[i].0 + ":" + mounts[i].1
  {
    if |mounts| > 1 { PairsAt(mounts[1..], if i > 0 then i - 1 else 0); }
  }

  /** The whole command line as the guest's shell splits it, for clean mounts. */
  lemma GuestWords(extra: seq<string>, mounts: seq<Mount>, hasRootfs: bool, interactive: bool)
    requires Clean(mounts)
    ensures Words(Booted(extra, mounts, hasRootfs, interactive)) ==
      ["console=ttyS0", "panic=-1", "quiet", "loglevel=3"]
        + (if hasRootfs then ["root=/dev/vda", "rootfstype=squashfs", "ro"] else [])
        + (if mounts == [] then [] else ["tokimo.mounts=" + Join(Pairs(mounts), ",")])
        + (AllWords(Filter(NotScript, extra)) + AllWords(Filter(IsScript, extra)))
        + (if interactive then ["tokimo.shell=1"] else [])
  {
    hide Words, Booted, Pairs, Filter, Join, AllWords, MountParts, CommaFields, ReadPairs, IsMounts;
    BootedWords(extra, mounts, hasRootfs, interactive);
    MountWords(mounts);
  }

  predicate IsRootOption(w: string) { w == "root=/dev/vda" || w == "rootfstype=squashfs" || w == "ro" }

  predicate NoRootOption(words: seq<string>) { forall w <- words :: !IsRootOption(w) }

  /** The guest is told of a root device exactly when the image has one, and always of
      its console. */
  lemma RootOptionsIff(extra: seq<string>, mounts: seq<Mount>, hasRootfs: bool, interactive: bool)
    requires Clean(mounts) && NoRootOption(AllWords(extra))
    ensures
      var words := Words(Booted(extra, mounts, hasRootfs, interactive));
      && ("root=/dev/vda" in words <==> hasRootfs)
      && ("rootfstype=squashfs" in words <==> hasRootfs)
      && ("ro" in words <==> hasRootfs)
      && |words| >= 4 && words[..4] == ["console=ttyS0", "panic=-1", "quiet", "loglevel=3"]
  {
    GuestWords(extra, mounts, hasRootfs, interactive);
    var root := if hasRootfs then ["root=/dev/vda", "rootfstype=squashfs", "ro"] else [];
    var fixed := ["console=ttyS0", "panic=-1", "quiet", "loglevel=3"];
    var given := if mounts == [] then [] else ["tokimo.mounts=" + Join(Pairs(mounts), ",")];
    var others := AllWords(Filter(NotScript, extra)) + AllWords(Filter(IsScript, extra));
    var last := if interactive then ["tokimo.shell=1"] else [];
    hide Words, Booted, Pairs, Filter, Join, AllWords, Clean;
    OthersHaveNone(extra);
    OwnWordsHaveNone(Join(Pairs(mounts), ","));
    RootList(hasRootfs);
    Scattered(fixed, root, given, others, last);
    hide NoRootOption;
    assert IsRootOption("root=/dev/vda") && IsRootOption("rootfstype=squashfs") && IsRootOption("ro");
    hide IsRootOption;
  }

  lemma OthersHaveNone(extra: seq<string>)
    requires NoRootOption(AllWords(extra))
    ensures NoRootOption(AllWords(Filter(NotScript, extra)) + AllWords(Filter(IsScript, extra)))
  {
    WordsOfFilter(NotScript, extra);
    WordsOfFilter(IsScript, extra);
    hide AllWords, Filter, IsRootOption;
  }

  lemma OwnWordsHaveNone(arg: string)
    ensures NoRootOption(["console=ttyS0", "panic=-1", "quiet", "loglevel=3"])
    ensures NoRootOption(["tokimo.mounts=" + arg]) && NoRootOption(["tokimo.shell=1"])
  {
    NotAnR("console=ttyS0");
    NotAnR("panic=-1");
    NotAnR("quiet");
    NotAnR("loglevel=3");
    NotAnR("tokimo.mounts=" + arg);
    NotAnR("tokimo.shell=1");
    hide IsRootOption;
  }

  lemma NotAnR(w: string)
    requires |w| > 0 && w[0] != 'r'
    ensures !IsRootOption(w)
  {
    assert "root=/dev/vda"[0] == "rootfstype=squashfs"[0] == "ro"[0] == 'r';
  }

  lemma RootList(hasRootfs: bool)
    ensures
      var root := if hasRootfs then ["root=/dev/vda", "rootfstype=squashfs", "ro"] else [];
      forall w: string :: IsRootOption(w) ==> (w in root <==> hasRootfs)
  {
  }

  lemma Scattered(a: seq<string>, root: seq<string>, b: seq<string>, c: seq<string>, d: seq<string>)
    requires NoRootOption(a) && NoRootOption(b) && NoRootOption(c) && NoRootOption(d)
    ensures forall w: string :: IsRootOption(w) ==> (w in a + root + b + c + d <==> w in root)
    ensures (a + root + b + c + d)[..|a|] == a
  {
    hide IsRootOption;
    assert a + root + b + c + d == a + (root + b + c + d);
  }

  /** The guest gets the mount list back, in order, exactly when no tag or path
      contains a blank, a comma or a colon; then it also gets the shell option right,
      whether or not the option was appended after everything else. */
  lemma MountsRoundTripIff(extra: seq<string>, mounts: seq<Mount>, hasRootfs: bool, interactive: bool)
    requires Unreserved(AllWords(extra))
    ensures MountsOf(Booted(extra, mounts, hasRootfs, interactive)) == mounts <==> Clean(mounts)
    ensures Clean(mounts) ==> ShellOf(Booted(extra, mounts, hasRootfs, interactive)) == interactive
  {
    hide MountsOf, ShellOf, Clean;
    MountsOfAreClean(Booted(extra, mounts, hasRootfs, interactive));
    if Clean(mounts) {
      CleanMountsComeBack(extra, mounts, hasRootfs, interactive);
    }
  }

  lemma CleanMountsComeBack(extra: seq<string>, mounts: seq<Mount>, hasRootfs: bool, interactive: bool)
    requires Unreserved(AllWords(extra)) && Clean(mounts)
    ensures MountsOf(Booted(extra, mounts, hasRootfs, interactive)) == mounts
    ensures ShellOf(Booted(extra, mounts, hasRootfs, interactive)) == interactive
  {
    hide Words, Booted, FixedParts, Filter, CommaFields, ReadPairs, Pairs, AllWords, MountParts, MountsArg, Join;
    BootedWords(extra, mounts, hasRootfs, interactive);
    FixedWords(hasRootfs);
    WordsOfFilter(NotScript, extra);
    WordsOfFilter(IsScript, extra);
    MountWords(mounts);
    var fixed, given := FixedParts(hasRootfs), AllWords(MountParts(mounts));
    var others := AllWords(Filter(NotScript, extra)) + AllWords(Filter(IsScript, extra));
    var last := if interactive then [SHELL_WORD] else [];
    var words := Words(Booted(extra, mounts, hasRootfs, interactive));
    assert words == (fixed + given) + others + last;
    assert words == (fixed + given) + (others + last);
    ShellOnly(fixed + given, others, interactive);
    LastMounts(fixed, given, others + last);
    ReadsNothing();
  }

  lemma MountWords(mounts: seq<Mount>)
    requires Clean(mounts)
    ensures
      var arg := Join(Pairs(mounts), ",");
      && AllWords(MountParts(mounts)) == (if mounts == [] then [] else [MOUNTS_KEY + arg])
      && (mounts != [] ==> arg != "" && ReadPairs(CommaFields(arg)) == mounts)
      && (mounts != [] ==> IsMounts(MOUNTS_KEY + arg) && MOUNTS_KEY + arg != SHELL_WORD)
      && (MOUNTS_KEY + arg)[|MOUNTS_KEY|..] == arg
  {
    hide Words, Pairs, Join, CommaFields, ReadPairs, AllWords, IsMounts;
    if mounts == [] {
      NoParts();
    } else {
      PairsRoundTrip(mounts);
      JoinIsNoBlank(Pairs(mounts));
      CommaFieldsRoundTrip(Pairs(mounts));
      MountWord(Join(Pairs(mounts), ","));
    }
  }

  lemma NoParts()
    ensures AllWords([]) == []
  {
  }

  lemma MountWord(arg: string)
    requires NoBlank(arg)
    ensures AllWords([MOUNTS_KEY + arg]) == [MOUNTS_KEY + arg]
    ensures IsMounts(MOUNTS_KEY + arg) && (MOUNTS_KEY + arg)[|MOUNTS_KEY|..] == arg && MOUNTS_KEY + arg != SHELL_WORD
  {
    assert IsMounts(MOUNTS_KEY + arg);
    ShellIsNotMounts();
    assert NoBlank(MOUNTS_KEY);
    assert NoBlank(MOUNTS_KEY + arg);
    hide IsMounts;
    AllWordsAlone([MOUNTS_KEY + arg]);
  }

  lemma ReadsNothing()
    ensures ReadPairs(CommaFields("")) == []
  {
    assert Split("", ',') == [""];
  }

  lemma LastMounts(fixed: seq<string>, given: seq<string>, after: seq<string>)
    requires Unreserved(fixed) && (given == [] || (|given| == 1 && IsMounts(given[0])))
    requires forall w <- after :: !IsMounts(w)
    ensures MountsArg(fixed + given + after) == if given == [] then "" else given[0][|MOUNTS_KEY|..]
  {
    MountsArgSkips(fixed + given, after);
    if given == [] {
      assert fixed + given == [] + fixed;
      MountsArgSkips([], fixed);
    } else {
      assert (fixed + given)[..|fixed + given| - 1] == fixed;
    }
  }

  lemma ShellOnly(before: seq<string>, others: seq<string>, interactive: bool)
    requires SHELL_WORD !in before && Unreserved(others)
    ensures SHELL_WORD in before + others + (if interactive then [SHELL_WORD] else []) <==> interactive
    ensures forall w <- others + (if interactive then [SHELL_WORD] else []) :: !IsMounts(w)
  {
    ShellIsNotMounts();
    assert Reserved(SHELL_WORD);
    hide IsMounts;
  }

  // ---------------------------------------------------------------- whatever the line holds

  /** Of several mounts words the last one counts. */
  lemma LastMountsWins(a: seq<string>, arg: string, b: seq<string>)
    requires forall w <- b :: !IsMounts(w)
    ensures MountsArg(a + ["tokimo.mounts=" + arg] + b) == arg
    ensures MountsArg(b) == ""
  {
    var w := "tokimo.mounts=" + arg;
    assert IsMounts(w) && w[|MOUNTS_KEY|..] == arg;
    MountsArgSkips(a + [w], b);
    MountsArgSkips([], b);
    assert [] + b == b && (a + [w])[..|a|] == a;
    hide IsMounts;
  }

  /** A pair is cut at its first two colons; a missing path is empty. */
  lemma PairIsCut(tag: string, path: string, rest: string)
    requires ':' !in tag && ':' !in path
    ensures ReadPair(tag + [':'] + (path + [':'] + rest)) == (tag, path)
    ensures ReadPair(tag + [':'] + path) == (tag, path) && ReadPair(tag) == (tag, "")
  {
    SplitSingle(tag, ':');
    SplitSingle(path, ':');
    SplitConcat(tag, path, ':');
    SplitConcat(path, rest, ':');
    SplitConcat(tag, path + [':'] + rest, ':');
  }

  /** A comma ends a field: one at the end begins no other, two make an empty one. */
  lemma CommasEndFields(a: string, b: string)
    requires ',' !in a && ',' !in b && b != ""
    ensures CommaFields(a + [','] + b) == [a, b] && CommaFields(b) == CommaFields(b + [',']) == [b]
    ensures CommaFields(a + [','] + (a + [','] + b)) == [a, a, b]
  {
    SplitSingle(a, ',');
    SplitSingle(b, ',');
    SplitConcat(a, b, ',');
    SplitConcat(b, "", ',');
    assert b + [','] == b + [','] + "";
    SplitConcat(a, a + [','] + b, ',');
  }

  // ---------------------------------------------------------------- script round trip

  lemma {:induction false} AfterLastKeyIsSuffix(line: string)
    ensures AfterLastKey(line).Some? ==>
      |AfterLastKey(line).value| + |SCRIPT_KEY| <= |line|
      && AfterLastKey(line).value == line[|line| - |AfterLastKey(line).value|..]
  {
    if line != "" {
      AfterLastKeyIsSuffix(line[1..]);
      if AfterLastKey(line[1..]).Some? {
        var n := |AfterLastKey(line[1..]).value|;
        assert line[1..][|line| - 1 - n..] == line[|line| - n..];
      }
    }
  }

  /** The search ignores everything before the last occurrence. */
  lemma {:induction false} AfterLastKeySkips(a: string, line: string)
    requires AfterLastKey(line).Some?
    ensures AfterLastKey(a + line) == AfterLastKey(line)
  {
    if a == "" {
      assert a + line == line;
    } else {
      AfterLastKeySkips(a[1..], line);
      assert (a + line)[1..] == a[1..] + line;
    }
  }

  /** The key does not overlap itself: `t` comes back only before the final `=`. */
  lemma KeyDoesNotOverlap(i: nat, s: string)
    requires 1 <= i < |SCRIPT_KEY|
    ensures !(SCRIPT_KEY <= SCRIPT_KEY[i..] + s)
  {
    var line := SCRIPT_KEY[i..] + s;
    assert line[0] == SCRIPT_KEY[i];
    if i == 12 {
      assert line[1] == SCRIPT_KEY[13] == '=' && SCRIPT_KEY[1] == 'o';
    } else {
      assert SCRIPT_KEY[i] != 't' && SCRIPT_KEY[0] == 't';
    }
  }

  lemma {:induction false} NoKeyInTail(i: nat, s: string)
    requires 1 <= i <= |SCRIPT_KEY| && AfterLastKey(s).None?
    ensures AfterLastKey(SCRIPT_KEY[i..] + s).None?
    decreases |SCRIPT_KEY| - i
  {
    var line := SCRIPT_KEY[i..] + s;
    if i == |SCRIPT_KEY| {
      assert line == s;
    } else {
      assert line[1..] == SCRIPT_KEY[i + 1..] + s;
      NoKeyInTail(i + 1, s);
      KeyDoesNotOverlap(i, s);
    }
  }

  lemma AfterKey(s: string)
    ensures AfterLastKey(SCRIPT_KEY + s) == if AfterLastKey(s).None? then Some(s) else AfterLastKey(s)
  {
    if AfterLastKey(s).None? {
      assert (SCRIPT_KEY + s)[1..] == SCRIPT_KEY[1..] + s;
      NoKeyInTail(1, s);
    } else {
      AfterLastKeySkips(SCRIPT_KEY, s);
    }
  }

  lemma KeyBeforeBlank(a: string, b: string)
    ensures SCRIPT_KEY <= a + " " + b <==> SCRIPT_KEY <= a
  {
    assert ' ' !in SCRIPT_KEY;
    var line := a + " " + b;
    assert line[|a|] == ' ' && line[..|a|] == a;
    assert SCRIPT_KEY <= line ==> SCRIPT_KEY == line[..|SCRIPT_KEY|];
    assert |a| < |SCRIPT_KEY| <= |line| ==> line[..|SCRIPT_KEY|][|a|] == ' ';
  }

  /** Text after a blank cannot complete an occurrence begun before it. */
  lemma {:induction false} BlankBreaksKey(a: string, b: string)
    requires AfterLastKey(" " + b).None?
    ensures AfterLastKey(a + " " + b).None? <==> AfterLastKey(a).None?
  {
    var line := a + " " + b;
    if a == "" {
      assert line == " " + b;
    } else {
      assert line[1..] == a[1..] + " " + b;
      BlankBreaksKey(a[1..], b);
      KeyBeforeBlank(a, b);
    }
  }

  lemma ScriptOfLine(line: string)
    requires '\n' !in line
    ensures ScriptOf(line + "\n") == match AfterLastKey(line) case Some(s) => s case None => ""
  {
    SplitSingle(line, '\n');
    SplitConcat(line, "", '\n');
    assert line + "\n" == line + ['\n'] + "";
    assert Split(line + "\n", '\n') == [line, ""];
    AfterLastKeyIsSuffix(line);
    assert PrintedLines([line, ""]) == match AfterLastKey(line) case Some(s) => [s] case None => [] by {
      assert PrintedLines([""]) == [];
      assert [line, ""][1..] == [""];
    }
  }

  lemma Regroup(a: string, b: string, c: string)
    ensures a + (b + c) == (a + b) + c
  {
  }

  lemma {:induction false} JoinLast(parts: seq<string>, sep: string) returns (front: string)
    requires parts != []
    ensures Join(parts, sep) == front + parts[|parts| - 1]
    ensures '\n' !in sep && (forall i :: 0 <= i < |parts| - 1 ==> '\n' !in parts[i]) ==> '\n' !in front
  {
    if |parts| == 1 {
      front := "";
    } else {
      assert Join(parts, sep) == parts[0] + sep + Join(parts[1..], sep);
      hide Join;
      var more := JoinLast(parts[1..], sep);
      front := parts[0] + sep + more;
      assert parts[1..][|parts| - 2] == parts[|parts| - 1];
      Regroup(parts[0] + sep, more, parts[|parts| - 1]);
    }
  }

  /** What is found holds no further occurrence. */
  lemma {:induction false} AfterLastKeyHasNone(line: string)
    ensures AfterLastKey(line).Some? ==> AfterLastKey(AfterLastKey(line).value).None?
  {
    if line != "" {
      AfterLastKeyHasNone(line[1..]);
      if AfterLastKey(line[1..]).None? && SCRIPT_KEY <= line {
        var s := line[|SCRIPT_KEY|..];
        assert line[1..] == line[1..|SCRIPT_KEY|] + s;
        if AfterLastKey(s).Some? {
          AfterLastKeySkips(line[1..|SCRIPT_KEY|], s);
        }
      }
    }
  }

  function ShellSuffix(interactive: bool): string {
    if interactive then " " + SHELL_WORD else ""
  }

  ghost predicate NoKeyLines(s: string) { forall line <- Split(s, '\n') :: AfterLastKey(line).None? }

  lemma {:induction false} FirstBreak(s: string) returns (a: string, b: string)
    requires '\n' in s
    ensures s == a + ['\n'] + b && '\n' !in a
    ensures Split(s, '\n') == [a] + Split(b, '\n')
  {
    if s[0] == '\n' {
      a, b := "", s[1..];
    } else {
      a, b := FirstBreak(s[1..]);
      a := [s[0]] + a;
    }
    SplitSingle(a, '\n');
    SplitConcat(a, b, '\n');
  }

  lemma {:induction false} PrintedHaveNoKey(lines: seq<string>)
    requires forall line <- lines :: '\n' !in line
    ensures forall p <- PrintedLines(lines) :: AfterLastKey(p).None? && '\n' !in p
  {
    hide AfterLastKey;
    if lines != [] {
      PrintedHaveNoKey(lines[1..]);
      AfterLastKeyHasNone(lines[0]);
      AfterLastKeyIsSuffix(lines[0]);
      assert lines[0] in lines;
    }
  }

  lemma {:induction false} StripKeepsNoKey(s: string)
    requires NoKeyLines(s)
    ensures NoKeyLines(StripNewlines(s))
  {
    if s != "" && s[|s| - 1] == '\n' {
      var front := s[..|s| - 1];
      assert s == front + ['\n'] + "";
      SplitConcat(front, "", '\n');
      assert forall line <- Split(front, '\n') :: line in Split(s, '\n');
      StripKeepsNoKey(front);
    }
  }

  /** No line of what is found holds the key. */
  lemma ScriptHasNoKey(text: string)
    ensures NoKeyLines(ScriptOf(text))
  {
    SplitPieces(text, '\n');
    var printed := PrintedLines(Split(text, '\n'));
    PrintedHaveNoKey(Split(text, '\n'));
    assert NoKeyLines(Join(printed, "\n")) by {
      if printed == [] {
        assert Split("", '\n') == [""];
      } else {
        SplitJoin(printed, '\n');
      }
    }
    StripKeepsNoKey(Join(printed, "\n"));
  }

  lemma {:induction false} NothingPrinted(lines: seq<string>)
    requires forall line <- lines :: AfterLastKey(line).None?
    ensures PrintedLines(lines) == []
  {
    hide AfterLastKey;
    if lines != [] {
      assert lines[0] in lines;
      NothingPrinted(lines[1..]);
    }
  }

  lemma {:induction false} StripWholeLine(s: string)
    requires '\n' !in s
    ensures StripNewlines(s) == s
  {
  }

  lemma EmptyHasNoKey()
    ensures AfterLastKey("").None?
  {
  }

  /** Of a script of several lines without the key, only the first comes back. */
  lemma FirstLineOnly(front: string, tail: string)
    requires '\n' !in front && '\n' in tail && NoKeyLines(tail)
    ensures '\n' !in ScriptOf(front + (SCRIPT_KEY + tail) + "\n")
  {
    hide AfterLastKey;
    var a, b := FirstBreak(tail);
    var first := front + (SCRIPT_KEY + a);
    var text := front + (SCRIPT_KEY + tail) + "\n";
    assert '\n' !in first;
    assert text == first + ['\n'] + (b + ['\n'] + "");
    SplitSingle(first, '\n');
    SplitConcat(first, b + ['\n'] + "", '\n');
    SplitConcat(b, "", '\n');
    var later := Split(b, '\n') + [""];
    assert Split(text, '\n') == [first] + later;
    assert ([first] + later)[1..] == later;
    EmptyHasNoKey();
    NothingPrinted(later);
    AfterKey(a);
    AfterLastKeySkips(front, SCRIPT_KEY + a);
    assert PrintedLines([first] + later) == [a];
    StripWholeLine(a);
  }

  lemma {:induction false} SuffixKeepsLines(script: string, interactive: bool)
    requires NoKeyLines(script)
    ensures NoKeyLines(script + ShellSuffix(interactive))
    decreases |script|
  {
    hide AfterLastKey;
    var suffix := ShellSuffix(interactive);
    assert '\n' !in suffix;
    if '\n' in script {
      var a, b := FirstBreak(script);
      SuffixKeepsLines(b, interactive);
      assert script + suffix == a + ['\n'] + (b + suffix);
      SplitConcat(a, b + suffix, '\n');
      SplitSingle(a, '\n');
    } else {
      SplitSingle(script, '\n');
      SplitSingle(script + suffix, '\n');
      SuffixHasNoKey(script, interactive);
      assert script in Split(script, '\n');
    }
  }

  /** Every line that holds the key is seen, cut at its last occurrence, and no other. */
  lemma KeyLinesAreSeen(x: string, a: string, y: string, z: string, b: string)
    requires '\n' !in x && '\n' !in a && '\n' !in y && '\n' !in z && '\n' !in b && b != ""
    requires AfterLastKey(a).None? && AfterLastKey(b).None? && AfterLastKey(y).None?
    ensures ScriptOf((x + ("tokimo.script=" + a)) + ['\n'] + (y + ['\n'] + (z + ("tokimo.script=" + b)))) ==
      a + ['\n'] + b
  {
    hide AfterLastKey, Split, Join, PrintedLines, StripNewlines;
    var first, last := x + (SCRIPT_KEY + a), z + (SCRIPT_KEY + b);
    AfterKey(a);
    AfterKey(b);
    AfterLastKeySkips(x, SCRIPT_KEY + a);
    AfterLastKeySkips(z, SCRIPT_KEY + b);
    assert '\n' !in SCRIPT_KEY;
    SplitThree(first, y, last);
    ThreeLines(first, y, last, a, b);
    NoNewlineAtEnd(a + ['\n'] + b);
  }

  lemma SplitThree(first: string, y: string, last: string)
    requires '\n' !in first && '\n' !in y && '\n' !in last
    ensures Split(first + ['\n'] + (y + ['\n'] + last), '\n') == [first, y, last]
  {
    SplitSingle(first, '\n');
    SplitSingle(y, '\n');
    SplitSingle(last, '\n');
    SplitConcat(y, last, '\n');
    SplitConcat(first, y + ['\n'] + last, '\n');
    hide Split;
  }

  lemma ThreeLines(first: string, y: string, last: string, a: string, b: string)
    requires AfterLastKey(first) == Some(a) && AfterLastKey(y).None? && AfterLastKey(last) == Some(b)
    ensures Join(PrintedLines([first, y, last]), "\n") == a + ['\n'] + b
  {
    hide AfterLastKey;
    assert [first, y, last][1..] == [y, last] && [y, last][1..] == [last] && [last][1..] == [];
    assert PrintedLines([last]) == [b] && PrintedLines([y, last]) == [b];
    assert [a, b][1..] == [b];
  }

  lemma NoNewlineAtEnd(s: string)
    requires s == "" || s[|s| - 1] != '\n'
    ensures StripNewlines(s) == s && StripNewlines(s + ['\n']) == s
  {
    assert (s + ['\n'])[..|s|] == s;
  }

  /** Of several script arguments the guest sees the last, with the shell option at its
      end when that was appended. It is that text exactly, unless the script itself
      contains the key, when it is cut at the key's last occurrence, or a line break,
      when only the lines that hold the key are seen. */
  lemma ScriptRoundTripIff(
    extra: seq<string>, mounts: seq<Mount>, hasRootfs: bool, interactive: bool, script: string)
    requires
      var parts := Parts(extra, mounts, hasRootfs);
      forall i :: 0 <= i < |parts| - 1 ==> '\n' !in parts[i]
    requires Filter(IsScript, extra) != []
    requires Filter(IsScript, extra)[|Filter(IsScript, extra)| - 1] == "tokimo.script=" + script
    ensures ScriptOf(Booted(extra, mounts, hasRootfs, interactive)) == script + ShellSuffix(interactive)
      <==> AfterLastKey(script).None? && '\n' !in script
    ensures ScriptOf(Booted(extra, mounts, hasRootfs, interactive)) == script
      <==> AfterLastKey(script).None? && '\n' !in script && !interactive
  {
    hide Filter, FixedParts, MountParts, Join, AfterLastKey, ScriptOf;
    var parts := Parts(extra, mounts, hasRootfs);
    var line := Line(extra, mounts, hasRootfs, interactive);
    var front := JoinLast(parts, " ");
    assert parts[|parts| - 1] == SCRIPT_KEY + script;
    var tail := script + ShellSuffix(interactive);
    assert line == front + (SCRIPT_KEY + tail);
    if '\n' in script {
      ScriptLosesLines(front, script, interactive);
    } else {
      OneLineScript(front, script, interactive);
    }
  }

  lemma ScriptLosesLines(front: string, script: string, interactive: bool)
    requires '\n' !in front && '\n' in script
    ensures
      var out := ScriptOf(front + (SCRIPT_KEY + (script + ShellSuffix(interactive))) + "\n");
      out != script && out != script + ShellSuffix(interactive)
  {
    hide AfterLastKey, ScriptOf, NoKeyLines;
    var tail := script + ShellSuffix(interactive);
    var text := front + (SCRIPT_KEY + tail) + "\n";
    ScriptHasNoKey(text);
    if NoKeyLines(script) {
      SuffixKeepsLines(script, interactive);
    }
    if NoKeyLines(tail) {
      FirstLineOnly(front, tail);
    }
  }

  lemma OneLineScript(front: string, script: string, interactive: bool)
    requires '\n' !in front && '\n' !in script
    ensures
      var out := ScriptOf(front + (SCRIPT_KEY + (script + ShellSuffix(interactive))) + "\n");
      && (out == script + ShellSuffix(interactive) <==> AfterLastKey(script).None?)
      && (out == script <==> AfterLastKey(script).None? && !interactive)
  {
    hide AfterLastKey, ScriptOf;
    var tail := script + ShellSuffix(interactive);
    ScriptOfLine(front + (SCRIPT_KEY + tail));
    AfterKey(tail);
    AfterLastKeySkips(front, SCRIPT_KEY + tail);
    AfterLastKeyHasNone(tail);
    AfterLastKeyHasNone(script);
    SuffixHasNoKey(script, interactive);
  }

  lemma SuffixHasNoKey(script: string, interactive: bool)
    ensures AfterLastKey(script + ShellSuffix(interactive)).None? <==> AfterLastKey(script).None?
  {
    hide AfterLastKey;
    if interactive {
      ShellHasNoKey();
      BlankBreaksKey(script, SHELL_WORD);
      assert script + " " + SHELL_WORD == script + ShellSuffix(interactive);
    } else {
      assert script + ShellSuffix(interactive) == script;
    }
  }

  lemma ShellHasNoKey()
    ensures AfterLastKey(" " + SHELL_WORD).None?
  {
    hide AfterLastKey;
    ShortLine(" " + SHELL_WORD);
  }

  /** A line one longer than the key that differs from it at both places. */
  lemma ShortLine(line: string)
    requires |line| == 15 && line[0] != 't' && line[9] != 'c'
    ensures AfterLastKey(line).None?
  {
    var tail := line[1..];
    AfterLastKeyIsSuffix(tail[1..]);
    assert tail[8] == line[9] && SCRIPT_KEY[8] == 'c' && SCRIPT_KEY[0] == 't';
  }
}
