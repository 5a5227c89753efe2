/** The std string and path operations the virtual drive relies on, as the Rust
    standard library defines them on Unix. */
module Paths {
  import opened Errors

  /** `str::starts_with`. */
  predicate StartsWith(s: string, prefix: string) {
    |prefix| <= |s| && s[..|prefix|] == prefix
  }

  /** `s` starts with `prefix` exactly when it is `prefix` followed by something. */
  lemma StartsWithMeaning(s: string, prefix: string)
    ensures StartsWith(s, prefix) <==> |prefix| <= |s| && s == prefix + s[|prefix|..]
  {
    if |prefix| <= |s| && s == prefix + s[|prefix|..] {
      assert s[..|prefix|] == prefix;
    }
  }

  /** `char::is_whitespace`: the characters with the Unicode White_Space property. */
  predicate IsWhitespace(c: char) {
    || ('\U{0009}' <= c && c <= '\U{000D}')
    || c == ' ' || c == '\U{0085}' || c == '\U{00A0}' || c == '\U{1680}'
    || ('\U{2000}' <= c && c <= '\U{200A}')
    || c == '\U{2028}' || c == '\U{2029}' || c == '\U{202F}' || c == '\U{205F}' || c == '\U{3000}'
  }

  /** `str::trim_right`: `s` without its trailing whitespace. */
  function TrimEnd(s: string): (r: string)
    ensures |r| <= |s| && r == s[..|r|]
    ensures r == [] || !IsWhitespace(r[|r| - 1])
    ensures forall i :: |r| <= i < |s| ==> IsWhitespace(s[i])
  {
    if s != [] && IsWhitespace(s[|s| - 1]) then TrimEnd(s[..|s| - 1]) else s
  }

  /** The pieces of `s` between occurrences of `sep`, as `str::split` yields them:
      there is always at least one, and separators are never part of a piece. */
  function Split(s: string, sep: char): (pieces: seq<string>)
    ensures |pieces| >= 1
    decreases |s|
  {
    if s == [] then [[]]
    else
      var init := Split(s[..|s| - 1], sep);
      var x := s[|s| - 1];
      if x == sep then init + [[]]
      else init[..|init| - 1] + [init[|init| - 1] + [x]]
  }

  /** The pieces put back together with `sep` between neighbours. */
  function JoinWith(pieces: seq<string>, sep: char): string
    requires |pieces| >= 1
  {
    if |pieces| == 1 then pieces[0]
    else JoinWith(pieces[..|pieces| - 1], sep) + [sep] + pieces[|pieces| - 1]
  }

  /** Round trip: joining the pieces of a split with the separator gives back the
      string that was split. */
  lemma {:induction false} JoinWithSplit(s: string, sep: char)
    ensures JoinWith(Split(s, sep), sep) == s
    decreases |s|
  {
    if s != [] {
      var s', x := s[..|s| - 1], s[|s| - 1];
      JoinWithSplit(s', sep);
      var init := Split(s', sep);
      assert s == s' + [x];
      SplitSnoc(s', x, sep);
      if x == sep {
        assert (init + [[]])[..|init|] == init;
        assert JoinWith(init + [[]], sep) == JoinWith(init, sep) + [sep];
      } else {
        JoinWithExtend(init, x, sep);
      }
    }
  }

  /** Extending the last piece extends the joined string. */
  lemma JoinWithExtend(pieces: seq<string>, x: char, sep: char)
    requires |pieces| >= 1
    ensures JoinWith(Extend(pieces, x), sep) == JoinWith(pieces, sep) + [x]
  {
    var e := Extend(pieces, x);
    if |pieces| > 1 {
      assert e[..|e| - 1] == pieces[..|pieces| - 1];
    }
  }

  /** Whether `t` is the text of `s` after its last `sep` (all of `s` when it has none). */
  predicate IsTextAfterLast(s: string, t: string, sep: char) {
    && |t| <= |s| && s[|s| - |t|..] == t
    && sep !in t
    && (|t| < |s| ==> s[|s| - |t| - 1] == sep)
  }

  /** The last piece of a split is the text after the last separator. This is what
      `split(..).last()` returns. */
  lemma {:induction false} SplitLast(s: string, sep: char)
    ensures IsTextAfterLast(s, Split(s, sep)[|Split(s, sep)| - 1], sep)
    decreases |s|
  {
    if s != [] {
      SplitLast(s[..|s| - 1], sep);
      SplitLastStep(s, sep);
    }
  }

  /** The inductive step of SplitLast: from `s` less its last character to `s`. */
  lemma SplitLastStep(s: string, sep: char)
    requires s != []
    requires var init := Split(s[..|s| - 1], sep); IsTextAfterLast(s[..|s| - 1], init[|init| - 1], sep)
    ensures IsTextAfterLast(s, Split(s, sep)[|Split(s, sep)| - 1], sep)
  {
    InitLast(s);
    SplitLastSnoc(s[..|s| - 1], s[|s| - 1], sep);
  }

  /** SplitLastStep with the last character given apart. */
  lemma SplitLastSnoc(s: string, x: char, sep: char)
    requires IsTextAfterLast(s, Split(s, sep)[|Split(s, sep)| - 1], sep)
    ensures IsTextAfterLast(s + [x], Split(s + [x], sep)[|Split(s + [x], sep)| - 1], sep)
  {
    SplitSnoc(s, x, sep);
    var pieces := Split(s, sep);
    if x != sep {
      ExtendLast(pieces, x);
      TextAfterLastSnoc(s, pieces[|pieces| - 1], x, sep);
    }
  }

  /** The last piece extended by one character is the last piece of the extension. */
  lemma ExtendLast(pieces: seq<string>, x: char)
    requires |pieces| >= 1
    ensures |Extend(pieces, x)| == |pieces| && Extend(pieces, x)[|pieces| - 1] == pieces[|pieces| - 1] + [x]
  {
  }

  /** A character other than the separator extends the text after the last one. */
  lemma TextAfterLastSnoc(s: string, t: string, x: char, sep: char)
    requires IsTextAfterLast(s, t, sep) && x != sep
    ensures IsTextAfterLast(s + [x], t + [x], sep)
  {
    InitOfSnoc(s, x);
    SuffixGrows(s + [x], t);
    assert |t| < |s| ==> (s + [x])[|s| - |t| - 1] == s[|s| - |t| - 1];
  }

  /** A non-empty sequence is its front followed by its last element. */
  lemma InitLast<T>(s: seq<T>)
    requires s != []
    ensures s[..|s| - 1] + [s[|s| - 1]] == s
  {
  }

  lemma InitOfSnoc<T>(s: seq<T>, x: T)
    ensures (s + [x])[..|s|] == s && (s + [x])[|s|] == x
  {
  }

  lemma SnocAssoc<T>(a: seq<T>, b: seq<T>, x: T)
    ensures a + b + [x] == a + (b + [x])
  {
  }

  /** A suffix of `s` without its last character, extended by that character, is a
      suffix of `s`. */
  lemma SuffixGrows(s: string, t: string)
    requires s != [] && |t| < |s| && s[..|s| - 1][|s| - 1 - |t|..] == t
    ensures s[|s| - |t| - 1..] == t + [s[|s| - 1]]
  {
  }

  /** A string without the separator splits into itself alone. */
  lemma {:induction false} SplitNoSep(t: string, sep: char)
    requires sep !in t
    ensures Split(t, sep) == [t]
    decreases |t|
  {
    if t != [] {
      SplitNoSep(t[..|t| - 1], sep);
      assert t[..|t| - 1] + [t[|t| - 1]] == t;
    }
  }

  /** The last piece extended by one character. */
  function Extend(pieces: seq<string>, x: char): seq<string>
    requires |pieces| >= 1
  {
    pieces[..|pieces| - 1] + [pieces[|pieces| - 1] + [x]]
  }

  /** One more character either starts a new piece or extends the last one. */
  lemma SplitSnoc(s: string, x: char, sep: char)
    ensures Split(s + [x], sep) == if x == sep then Split(s, sep) + [[]] else Extend(Split(s, sep), x)
  {
    assert (s + [x])[..|s|] == s;
  }

  /** Splitting at a separator splits the two sides independently. */
  lemma {:induction false} SplitConcat(a: string, b: string, sep: char)
    ensures Split(a + [sep] + b, sep) == Split(a, sep) + Split(b, sep)
    decreases |b|
  {
    if b == [] {
      SplitSnoc(a, sep, sep);
      assert a + [sep] + b == a + [sep];
    } else {
      SplitConcat(a, b[..|b| - 1], sep);
      SplitConcatStep(a, b, sep);
    }
  }

  /** The inductive step of SplitConcat: from `b` less its last character to `b`. */
  lemma SplitConcatStep(a: string, b: string, sep: char)
    requires b != []
    requires Split(a + [sep] + b[..|b| - 1], sep) == Split(a, sep) + Split(b[..|b| - 1], sep)
    ensures Split(a + [sep] + b, sep) == Split(a, sep) + Split(b, sep)
  {
    var b', x := b[..|b| - 1], b[|b| - 1];
    SplitConcatSnoc(a, b', x, sep);
    InitLast(b);
    SnocAssoc(a + [sep], b', x);
  }

  /** SplitConcatStep with the last character given apart. */
  lemma SplitConcatSnoc(a: string, b: string, x: char, sep: char)
    requires Split(a + [sep] + b, sep) == Split(a, sep) + Split(b, sep)
    ensures Split(a + [sep] + b + [x], sep) == Split(a, sep) + Split(b + [x], sep)
  {
    SplitSnoc(a + [sep] + b, x, sep);
    SplitSnoc(b, x, sep);
    var sa, sb := Split(a, sep), Split(b, sep);
    if x != sep {
      ExtendConcat(sa, sb, x);
    }
  }

  lemma ExtendConcat(p: seq<string>, q: seq<string>, x: char)
    requires |q| >= 1
    ensures Extend(p + q, x) == p + Extend(q, x)
  {
    assert (p + q)[..|p + q| - 1] == p + q[..|q| - 1];
  }

  /** No piece of a split holds the separator. */
  lemma {:induction false} SplitPiecesLackSep(s: string, sep: char)
    ensures forall i :: 0 <= i < |Split(s, sep)| ==> sep !in Split(s, sep)[i]
    decreases |s|
  {
    if s != [] {
      SplitPiecesLackSep(s[..|s| - 1], sep);
    }
  }

  /** Round trip: splitting the joined pieces gives the pieces back, provided no
      piece holds the separator. */
  lemma {:induction false} SplitJoinWith(pieces: seq<string>, sep: char)
    requires |pieces| >= 1
    requires forall i :: 0 <= i < |pieces| ==> sep !in pieces[i]
    ensures Split(JoinWith(pieces, sep), sep) == pieces
    decreases |pieces|
  {
    if |pieces| == 1 {
      SplitNoSep(pieces[0], sep);
    } else {
      var init := pieces[..|pieces| - 1];
      assert forall i :: 0 <= i < |init| ==> init[i] == pieces[i];
      SplitJoinWith(init, sep);
      SplitJoinWithStep(pieces, sep);
    }
  }

  /** The inductive step of SplitJoinWith: one more piece on the right. */
  lemma SplitJoinWithStep(pieces: seq<string>, sep: char)
    requires |pieces| >= 2 && sep !in pieces[|pieces| - 1]
    requires Split(JoinWith(pieces[..|pieces| - 1], sep), sep) == pieces[..|pieces| - 1]
    ensures Split(JoinWith(pieces, sep), sep) == pieces
  {
    var init, last := pieces[..|pieces| - 1], pieces[|pieces| - 1];
    SplitConcat(JoinWith(init, sep), last, sep);
    SplitNoSep(last, sep);
    InitLast(pieces);
  }

  /** Whether a name can be one entry of a directory listing: not empty, not `.`
      or `..`, and free of `/`. */
  predicate ValidEntryName(s: string) {
    s != "" && s != "." && s != ".." && '/' !in s
  }

  /** Two texts after the last separator of the same string are the same text. */
  lemma TextAfterLastUnique(s: string, t: string, u: string, sep: char)
    requires IsTextAfterLast(s, t, sep) && IsTextAfterLast(s, u, sep)
    ensures t == u
  {
  }

  /** The text after the last `/` of `s`. */
  function AfterLastSlash(s: string): (r: string)
    ensures IsTextAfterLast(s, r, '/')
    decreases |s|
  {
    if s == [] || s[|s| - 1] == '/' then []
    else
      var init, x := s[..|s| - 1], s[|s| - 1];
      var t := AfterLastSlash(init);
      assert init + [x] == s;
      SuffixGrows(s, t);
      assert |t| < |init| ==> s[|s| - |t| - 2] == init[|init| - |t| - 1];
      t + [x]
  }

  /** Whether a path ends in a `.` component (`.` itself, or `/.` at its end). */
  predicate EndsInCurDir(path: string) {
    path == "." || (|path| >= 2 && path[|path| - 2] == '/' && path[|path| - 1] == '.')
  }

  /** The path without the trailing `/` separators and `.` components that
      `Path::components` skips when read from the back. */
  function StripTrailing(path: string): (r: string)
    ensures |r| <= |path| && r == path[..|r|]
    ensures r == [] || (r[|r| - 1] != '/' && !EndsInCurDir(r))
    decreases |path|
  {
    if path == [] then []
    else if path[|path| - 1] == '/' || EndsInCurDir(path) then StripTrailing(path[..|path| - 1])
    else path
  }

  /** `Path::file_name`: the last component of the path when it is a normal one;
      None when the path ends in `..` or has no component but `/` and `.`. */
  function FileName(path: string): (r: Option<string>)
    ensures r.Some? ==> ValidEntryName(r.value)
  {
    var stripped := StripTrailing(path);
    var last := AfterLastSlash(stripped);
    if last == "" || last == ".." then None
    else Some(last)
  }

  /** `Path::join` (`PathBuf::push`) on Unix: an absolute `rel` replaces `base`;
      otherwise one `/` goes between them unless `base` is empty or ends in one. */
  function Join(base: string, rel: string): string {
    if |rel| > 0 && rel[0] == '/' then rel
    else if base == [] || base[|base| - 1] == '/' then base + rel
    else base + "/" + rel
  }

  /** The joined path ends in `rel`; an absolute `rel` is the whole result, and
      otherwise the result starts with `base` and adds at most one separator. */
  lemma JoinShape(base: string, rel: string)
    ensures var r := Join(base, rel);
      && |rel| <= |r| && r[|r| - |rel|..] == rel
      && (rel != [] && rel[0] == '/' ==> r == rel)
      && (!(rel != [] && rel[0] == '/') ==> StartsWith(r, base) && |r| <= |base| + 1 + |rel|)
  {
  }

  /** Joining a directory entry's name to a directory and asking for the file name
      gives the entry's name back. */
  lemma FileNameOfJoin(dir: string, name: string)
    requires ValidEntryName(name)
    ensures FileName(Join(dir, name)) == Some(name)
  {
    JoinEntry(dir, name);
    FileNameOfEntry(Join(dir, name), name);
  }

  /** A path whose text after the last `/` is an entry name has that file name. */
  lemma FileNameOfEntry(p: string, name: string)
    requires ValidEntryName(name) && IsTextAfterLast(p, name, '/')
    ensures FileName(p) == Some(name)
  {
    var k := |p| - |name|;
    assert p[|p| - 1] == p[k..][|name| - 1] == name[|name| - 1];
    if |name| >= 2 {
      assert p[|p| - 2] == p[k..][|name| - 2] == name[|name| - 2];
    }
    assert StripTrailing(p) == p;
    TextAfterLastUnique(p, AfterLastSlash(p), name, '/');
  }

  /** An entry name joined to a directory is the text after the last `/`. */
  lemma JoinEntry(dir: string, name: string)
    requires ValidEntryName(name)
    ensures IsTextAfterLast(Join(dir, name), name, '/')
  {
    var p := Join(dir, name);
    var q := p[..|p| - |name|];
    assert p == q + name && (q == [] || q[|q| - 1] == '/');
    assert p[|p| - |name|..] == name;
  }
}
