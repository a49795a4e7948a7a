/** The deck name of a SiYuan card, computed from the human-readable path
    `hpath` of its document as `hpath.split("/").slice(0, -1).join("::")`. */
module DeckPath {

  const PathSeparator: char := '/'
  const DeckSeparator: string := "::"

  /** JavaScript's `s.split(sep)` for a one-character separator: the pieces
      between separators, always at least one (the empty string splits into
      `[""]`). */
  function Split(s: string, sep: char): (r: seq<string>)
    ensures |r| >= 1
    ensures forall i :: 0 <= i < |r| ==> sep !in r[i]
  {
    if s == [] then [""]
    else
      var rest := Split(s[1..], sep);
      if s[0] == sep then [""] + rest
      else [[s[0]] + rest[0]] + rest[1..]
  }

  /** JavaScript's `parts.join(sep)`: the first part opens the result, and
      when there is a second the separator follows it. */
  function Join(parts: seq<string>, sep: string): (r: string)
    ensures |parts| == 0 ==> r == ""
    ensures |parts| > 0 ==> parts[0] <= r
    ensures |parts| > 1 ==> parts[0] + sep <= r
  {
    if |parts| == 0 then ""
    else if |parts| == 1 then parts[0]
    else parts[0] + sep + Join(parts[1..], sep)
  }

  /** JavaScript's `xs.slice(0, -1)`: everything but the last element. */
  function DropLast<T>(xs: seq<T>): (r: seq<T>)
    ensures |xs| > 0 ==> |r| == |xs| - 1
    ensures r <= xs
  {
    if xs == [] then [] else xs[..|xs| - 1]
  }

  /** The deck of a card whose document path is `hpath`: it holds no '/',
      and a path without '/' (a document at the top of its notebook) has
      the empty deck. */
  function DeckName(hpath: string): (r: string)
    ensures PathSeparator !in r
    ensures PathSeparator !in hpath ==> r == ""
  {
    var parts := DropLast(Split(hpath, PathSeparator));
    assert forall i :: 0 <= i < |parts| ==> PathSeparator !in parts[i] by {
      forall i | 0 <= i < |parts| ensures PathSeparator !in parts[i] {
        assert parts[i] == Split(hpath, PathSeparator)[i];
      }
    }
    JoinAvoids(parts, DeckSeparator, PathSeparator);
    if PathSeparator in hpath then Join(parts, DeckSeparator)
    else
      SplitWithoutSeparator(hpath, PathSeparator);
      Join(parts, DeckSeparator)
  }

  /** A character that no part and not the separator holds is not in the
      joined string. */
  lemma {:induction false} JoinAvoids(parts: seq<string>, sep: string, c: char)
    requires c !in sep
    requires forall i :: 0 <= i < |parts| ==> c !in parts[i]
    ensures c !in Join(parts, sep)
  {
    if |parts| > 1 {
      JoinAvoids(parts[1..], sep, c);
      assert c !in parts[0];
    }
  }

  // ---------------------------------------------------------------------
  // An independent description of the same deck name: the folder part of
  // the path (up to its last '/') with every '/' replaced by "::".

  /** Every occurrence of `c` in `s` replaced by `rep`. */
  function ReplaceAll(s: string, c: char, rep: string): string
  {
    if s == [] then ""
    else (if s[0] == c then rep else [s[0]]) + ReplaceAll(s[1..], c, rep)
  }

  /** The part of `path` before its last '/', or "" when it has none. */
  function Folder(path: string): string
  {
    if path == [] then ""
    else if path[|path| - 1] == PathSeparator then path[..|path| - 1]
    else Folder(path[..|path| - 1])
  }

  /** The part of `path` after its last '/', or all of it when it has none. */
  function BaseName(path: string): string
  {
    if path == [] then ""
    else if path[|path| - 1] == PathSeparator then path[|path|..]
    else BaseName(path[..|path| - 1]) + [path[|path| - 1]]
  }

  lemma {:induction false} FolderAndBaseName(path: string)
    ensures PathSeparator !in BaseName(path)
    ensures PathSeparator in path ==> path == Folder(path) + [PathSeparator] + BaseName(path)
    ensures PathSeparator !in path ==> Folder(path) == "" && BaseName(path) == path
  {
    if path != [] && path[|path| - 1] != PathSeparator {
      var init := path[..|path| - 1];
      FolderAndBaseName(init);
      assert path == init + [path[|path| - 1]];
    }
  }

  // ---------------------------------------------------------------------
  // Facts about Split and Join.

  /** A string without the separator is one piece. */
  lemma {:induction false} SplitWithoutSeparator(s: string, sep: char)
    requires sep !in s
    ensures Split(s, sep) == [s]
  {
    if s != [] {
      SplitWithoutSeparator(s[1..], sep);
      assert [s[0]] + s[1..] == s;
    }
  }

  /** Splitting at one separator splits the two sides independently. */
  lemma {:induction false} SplitAround(a: string, sep: char, b: string)
    ensures Split(a + [sep] + b, sep) == Split(a, sep) + Split(b, sep)
  {
    if a == [] {
      assert a + [sep] + b == [sep] + b;
      assert ([sep] + b)[1..] == b;
    } else {
      var s := a + [sep] + b;
      assert s[0] == a[0] && s[1..] == a[1..] + [sep] + b;
      SplitAround(a[1..], sep, b);
      var left := Split(a[1..], sep);
      assert Split(s[1..], sep) == left + Split(b, sep);
      if a[0] != sep {
        assert (left + Split(b, sep))[0] == left[0];
        assert (left + Split(b, sep))[1..] == left[1..] + Split(b, sep);
      }
    }
  }

  /** Joining the pieces with `rep` is replacing every separator by `rep`. */
  lemma {:induction false} JoinSplit(s: string, sep: char, rep: string)
    ensures Join(Split(s, sep), rep) == ReplaceAll(s, sep, rep)
  {
    if s != [] {
      JoinSplit(s[1..], sep, rep);
      var rest := Split(s[1..], sep);
      if s[0] == sep {
        assert ([""] + rest)[1..] == rest;
      } else if |rest| == 1 {
        assert Join([[s[0]] + rest[0]], rep) == [s[0]] + rest[0];
      } else {
        var parts := [[s[0]] + rest[0]] + rest[1..];
        assert parts[1..] == rest[1..];
        assert Join(rest, rep) == rest[0] + rep + Join(rest[1..], rep);
      }
    }
  }

  lemma {:induction false} ReplaceByItself(s: string, c: char)
    ensures ReplaceAll(s, c, [c]) == s
  {
    if s != [] {
      ReplaceByItself(s[1..], c);
      assert [s[0]] + s[1..] == s;
    }
  }

  /** `s.split(sep).join(sep)` gives `s` back. */
  lemma SplitJoinRoundTrip(s: string, sep: char)
    ensures Join(Split(s, sep), [sep]) == s
  {
    JoinSplit(s, sep, [sep]);
    ReplaceByItself(s, sep);
  }

  /** The deck of a card is the folder part of its document path with
      every '/' written as "::"; a path without '/' gives the empty deck. */
  lemma DeckNameIsFolder(hpath: string)
    ensures DeckName(hpath) == ReplaceAll(Folder(hpath), PathSeparator, DeckSeparator)
    ensures PathSeparator !in hpath ==> DeckName(hpath) == ""
  {
    FolderAndBaseName(hpath);
    if PathSeparator in hpath {
      var folder, base := Folder(hpath), BaseName(hpath);
      SplitAround(folder, PathSeparator, base);
      SplitWithoutSeparator(base, PathSeparator);
      assert DropLast(Split(folder, PathSeparator) + [base]) == Split(folder, PathSeparator);
      JoinSplit(folder, PathSeparator, DeckSeparator);
    } else {
      SplitWithoutSeparator(hpath, PathSeparator);
    }
  }

  /** The worked example: "/A/B/doc" lies in deck "::A::B". */
  lemma DeckNameExample()
    ensures DeckName("/A/B/doc") == "::A::B"
  {
    DeckNameIsFolder("/A/B/doc");
    assert Folder("/A/B/") == "/A/B";
    assert Folder("/A/B/d") == Folder("/A/B/");
    assert Folder("/A/B/do") == Folder("/A/B/d");
    assert "/A/B/doc"[..7] == "/A/B/do";
    assert Folder("/A/B/doc") == Folder("/A/B/do");
    assert ReplaceAll("B", '/', "::") == "B";
    assert ReplaceAll("/B", '/', "::") == "::B";
    assert ReplaceAll("A/B", '/', "::") == "A::B";
    assert ReplaceAll("/A/B", '/', "::") == "::A::B";
  }
}
