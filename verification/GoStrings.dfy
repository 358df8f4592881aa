/**
 The string functions of Go's strings, path and net/url packages that the storage-location
 code relies on, as far as it does.
 */
module GoStrings {

  /** unicode.IsSpace. */
  predicate IsSpace(c: char) {
    var n := c as int;
    || 9 <= n <= 13 || n == 0x20 || n == 0x85 || n == 0xA0 || n == 0x1680 || 0x2000 <= n <= 0x200A
    || n == 0x2028 || n == 0x2029 || n == 0x202F || n == 0x205F || n == 0x3000
  }

  predicate IsSlash(c: char) { c == '/' }

  function TrimStart(s: string, cut: char -> bool): (r: string)
    ensures |r| <= |s| && (r == s <==> s == "" || !cut(s[0]))
    ensures |r| == |s| ==> r == s
  {
    if s == "" || !cut(s[0]) then s else TrimStart(s[1..], cut)
  }

  function TrimEnd(s: string, cut: char -> bool): (r: string)
    ensures |r| <= |s| && (r == s <==> s == "" || !cut(s[|s| - 1]))
    ensures |r| == |s| ==> r == s
  {
    if s == "" || !cut(s[|s| - 1]) then s else TrimEnd(s[..|s| - 1], cut)
  }

  function Trim(s: string, cut: char -> bool): (r: string)
    ensures |r| <= |s| && (r == s <==> s == "" || (!cut(s[0]) && !cut(s[|s| - 1])))
    ensures |r| == |s| ==> r == s
  {
    TrimEnd(TrimStart(s, cut), cut)
  }

  function TrimSpace(s: string): string { Trim(s, IsSpace) }

  /** What a program and its configuration usually hold, judged by unicode.IsSpace. */
  lemma CommonSpaces()
    ensures forall c :: c in " \t\n\r\U{0b}\U{0c}\U{85}\U{a0}" ==> IsSpace(c)
    ensures forall c :: '!' <= c <= '~' ==> !IsSpace(c)
  {
  }

  lemma {:induction false} TrimStartOf(a: string, t: string, cut: char -> bool)
    requires (forall c :: c in a ==> cut(c)) && (t == "" || !cut(t[0]))
    ensures TrimStart(a + t, cut) == t
  {
    if a == "" {
      assert a + t == t;
    } else {
      assert a[0] in a && (a + t)[1..] == a[1..] + t;
      TrimStartOf(a[1..], t, cut);
    }
  }

  lemma {:induction false} TrimEndOf(t: string, b: string, cut: char -> bool)
    requires (forall c :: c in b ==> cut(c)) && (t == "" || !cut(t[|t| - 1]))
    ensures TrimEnd(t + b, cut) == t
  {
    if b == "" {
      assert t + b == t;
    } else {
      var n := |b| - 1;
      assert b[n] in b && (t + b)[..|t + b| - 1] == t + b[..n];
      TrimEndOf(t, b[..n], cut);
    }
  }

  /** What trimming leaves: between characters that are cut stands what does not begin or end
      with one. */
  lemma TrimOf(a: string, t: string, b: string, cut: char -> bool)
    requires (forall c :: c in a ==> cut(c)) && (forall c :: c in b ==> cut(c))
    requires t == "" || (!cut(t[0]) && !cut(t[|t| - 1]))
    ensures Trim(a + t + b, cut) == t
  {
    if t == "" {
      assert a + t + b == (a + b) + "";
      TrimStartOf(a + b, "", cut);
    } else {
      assert a + t + b == a + (t + b);
      TrimStartOf(a, t + b, cut);
      TrimEndOf(t, b, cut);
    }
  }

  lemma {:induction false} TrimStartParts(s: string, cut: char -> bool) returns (a: string)
    ensures s == a + TrimStart(s, cut) && (forall c :: c in a ==> cut(c))
    ensures TrimStart(s, cut) == "" || !cut(TrimStart(s, cut)[0])
  {
    if s == "" || !cut(s[0]) {
      a := "";
    } else {
      var rest := TrimStartParts(s[1..], cut);
      a := [s[0]] + rest;
    }
  }

  lemma {:induction false} TrimEndParts(s: string, cut: char -> bool) returns (b: string)
    ensures s == TrimEnd(s, cut) + b && (forall c :: c in b ==> cut(c))
    ensures TrimEnd(s, cut) == "" || !cut(TrimEnd(s, cut)[|TrimEnd(s, cut)| - 1])
  {
    if s == "" || !cut(s[|s| - 1]) {
      b := "";
    } else {
      var rest := TrimEndParts(s[..|s| - 1], cut);
      b := rest + [s[|s| - 1]];
    }
  }

  /** And every string is of that form. */
  lemma TrimParts(s: string, cut: char -> bool) returns (a: string, b: string)
    ensures s == a + Trim(s, cut) + b
    ensures (forall c :: c in a ==> cut(c)) && (forall c :: c in b ==> cut(c))
    ensures var t := Trim(s, cut); t == "" || (!cut(t[0]) && !cut(t[|t| - 1]))
  {
    a := TrimStartParts(s, cut);
    b := TrimEndParts(TrimStart(s, cut), cut);
  }

  function TrimPrefix(s: string, prefix: string): (r: string)
    ensures prefix <= s ==> prefix + r == s
    ensures !(prefix <= s) ==> r == s
  {
    if prefix <= s then s[|prefix|..] else s
  }

  function ToLower(s: string): (r: string)
    ensures |r| == |s|
    ensures forall i :: 0 <= i < |s| ==>
              if 'A' <= s[i] <= 'Z' then 'a' <= r[i] <= 'z' && r[i] - 'a' == s[i] - 'A' else r[i] == s[i]
  {
    seq(|s|, i requires 0 <= i < |s| => if 'A' <= s[i] <= 'Z' then s[i] - 'A' + 'a' else s[i])
  }

  /** strings.IndexByte: the first position of c, or |s|. */
  function Index(s: string, c: char): (i: nat)
    ensures i <= |s| && (i < |s| ==> s[i] == c) && forall j :: 0 <= j < i ==> s[j] != c
  {
    if s == "" || s[0] == c then 0 else 1 + Index(s[1..], c)
  }

  /** Everything before the first c. */
  function Before(s: string, c: char): (r: string)
    ensures r <= s && c !in r && (r == s || s[|r|] == c)
  {
    s[..Index(s, c)]
  }

  lemma IndexOfAbsent(s: string, c: char)
    requires c !in s
    ensures Index(s, c) == |s| && Before(s, c) == s
  {
  }

  lemma IndexInConcat(s: string, t: string, c: char)
    requires c !in s && t != "" && t[0] == c
    ensures Index(s + t, c) == |s|
  {
    assert forall j :: 0 <= j < |s| ==> (s + t)[j] == s[j];
    assert (s + t)[|s|] == c;
  }

  // ---- Slash-separated segments ----

  function Split(s: string): (segs: seq<string>)
    ensures |segs| > 0 && forall x :: x in segs ==> '/' !in x
    decreases |s|
  {
    var i := Index(s, '/');
    if i == |s| then [s] else [s[..i]] + Split(s[i + 1..])
  }

  function Join(segs: seq<string>): string {
    if |segs| == 0 then "" else if |segs| == 1 then segs[0] else segs[0] + "/" + Join(segs[1..])
  }

  lemma {:induction false} JoinSplit(s: string)
    ensures Join(Split(s)) == s
    decreases |s|
  {
    var i := Index(s, '/');
    if i < |s| {
      JoinSplit(s[i + 1..]);
      assert Split(s)[1..] == Split(s[i + 1..]);
      assert s == s[..i] + "/" + s[i + 1..];
    }
  }

  lemma {:induction false} SplitJoin(segs: seq<string>)
    requires |segs| > 0 && forall x :: x in segs ==> '/' !in x
    ensures Split(Join(segs)) == segs
  {
    if |segs| == 1 {
      IndexOfAbsent(segs[0], '/');
    } else {
      var rest := Join(segs[1..]);
      SplitJoin(segs[1..]);
      IndexInConcat(segs[0], "/" + rest, '/');
      assert Join(segs) == segs[0] + ("/" + rest);
      assert Join(segs)[..|segs[0]|] == segs[0] && Join(segs)[|segs[0]| + 1..] == rest;
    }
  }

  lemma SplitHead(head: string, tail: string)
    requires '/' !in head
    ensures Split(head + "/" + tail) == [head] + Split(tail)
  {
    var s := head + "/" + tail;
    IndexInConcat(head, "/" + tail, '/');
    assert s == head + ("/" + tail);
    assert s[..|head|] == head && s[|head| + 1..] == tail;
  }

  /** Appending a slash and a segment appends to the list of segments. */
  lemma {:induction false} SplitAppend(p: string, id: string)
    requires '/' !in id
    ensures Split(p + "/" + id) == Split(p) + [id]
    decreases |p|
  {
    var i := Index(p, '/');
    if i == |p| {
      SplitHead(p, id);
      IndexOfAbsent(id, '/');
    } else {
      var head, tail := p[..i], p[i + 1..];
      assert Split(p) == [head] + Split(tail);
      SplitAppend(tail, id);
      AppendAround(p, i, id);
      SplitHead(head, tail + "/" + id);
      assert Split(p + "/" + id) == [head] + (Split(tail) + [id]);
    }
  }

  lemma AppendAround(p: string, i: nat, id: string)
    requires i < |p| && p[i] == '/'
    ensures p + "/" + id == p[..i] + "/" + (p[i + 1..] + "/" + id)
  {
    assert p == p[..i] + "/" + p[i + 1..];
  }

  // ---- path.Clean on a path that does not start with a slash ----

  /** Drops empty and "." segments and resolves ".." against what stands before it. */
  function Normalize(segs: seq<string>): (r: seq<string>)
    ensures |r| <= |segs|
  {
    if segs == [] then []
    else
      var front, x := Normalize(segs[..|segs| - 1]), segs[|segs| - 1];
      if x == "" || x == "." then front
      else if x == ".." && front != [] && front[|front| - 1] != ".." then front[..|front| - 1]
      else front + [x]
  }

  function Clean(s: string): string {
    var segs := Normalize(Split(s));
    if segs == [] then "." else Join(segs)
  }

  /** No empty or "." segment, and ".." only at the beginning. */
  predicate Normal(segs: seq<string>) {
    forall i :: 0 <= i < |segs| ==>
      segs[i] != "" && segs[i] != "." && (segs[i] == ".." && i > 0 ==> segs[i - 1] == "..")
  }

  lemma NormalSnoc(front: seq<string>, x: string)
    ensures Normal(front + [x]) <==>
            Normal(front) && x != "" && x != "." && (x == ".." && front != [] ==> front[|front| - 1] == "..")
  {
    var segs := front + [x];
    assert forall i :: 0 <= i < |front| ==> front[i] == segs[i];
    assert segs[|front|] == x;
  }

  /** Normalizing changes nothing exactly when there is nothing to normalize. */
  lemma {:induction false} NormalizeFixpoint(segs: seq<string>)
    ensures Normalize(segs) == segs <==> Normal(segs)
  {
    if segs != [] {
      var front, x := segs[..|segs| - 1], segs[|segs| - 1];
      assert segs == front + [x];
      NormalizeFixpoint(front);
      NormalSnoc(front, x);
      if Normalize(segs) == segs {
        assert Normalize(segs)[..|front|] == Normalize(front);
      }
    }
  }

  lemma {:induction false} JoinSnoc(segs: seq<string>, x: string)
    ensures Join(segs + [x]) == if segs == [] then x else Join(segs) + "/" + x
  {
    if |segs| > 1 {
      JoinSnoc(segs[1..], x);
      assert (segs + [x])[1..] == segs[1..] + [x];
    } else if |segs| == 1 {
      assert (segs + [x])[1..] == [x];
    }
  }

  /** Normalizing never lengthens a path. */
  lemma {:induction false} NormalizeShrinks(segs: seq<string>)
    ensures |Join(Normalize(segs))| <= |Join(segs)|
  {
    if segs != [] {
      var front, x := segs[..|segs| - 1], segs[|segs| - 1];
      var n := Normalize(front);
      NormalizeShrinks(front);
      assert segs == front + [x];
      JoinSnoc(front, x);
      JoinSnoc(n, x);
      assert n == [] ==> |Join(n + [x])| <= |Join(segs)|;
      if n != [] {
        assert n == n[..|n| - 1] + [n[|n| - 1]];
        JoinSnoc(n[..|n| - 1], n[|n| - 1]);
        assert |Join(n[..|n| - 1])| <= |Join(n)|;
      }
    }
  }

  lemma {:induction false} NormalizeKeepsSegments(segs: seq<string>)
    requires forall x :: x in segs ==> '/' !in x
    ensures forall x :: x in Normalize(segs) ==> '/' !in x
  {
    if segs != [] {
      NormalizeKeepsSegments(segs[..|segs| - 1]);
    }
  }

  /** path.Clean leaves a path of several segments alone exactly when its segments are normal. */
  lemma CleanFixpoint(s: string)
    requires '/' in s
    ensures Clean(s) == s <==> Normal(Split(s))
    ensures |Clean(s)| <= |s|
  {
    var segs := Split(s);
    var n := Normalize(segs);
    NormalizeFixpoint(segs);
    NormalizeShrinks(segs);
    JoinSplit(s);
    if n == segs {
    } else if n == [] {
    } else {
      NormalizeKeepsSegments(segs);
      SplitJoin(n);
      assert Join(n) == s ==> n == segs;
    }
  }

  // ---- path.Clean as rewriting ----

  predicate AreSegments(segs: seq<string>) {
    forall x :: x in segs ==> '/' !in x
  }

  /** What follows sees of a front only what normalizing leaves of it. */
  lemma {:induction false} NormalizeContinues(f: seq<string>, g: seq<string>, rest: seq<string>)
    requires Normalize(f) == Normalize(g)
    ensures Normalize(f + rest) == Normalize(g + rest)
  {
    if rest == [] {
      assert f + rest == f && g + rest == g;
    } else {
      var n := |rest| - 1;
      NormalizeContinues(f, g, rest[..n]);
      assert (f + rest)[..|f + rest| - 1] == f + rest[..n] && (g + rest)[..|g + rest| - 1] == g + rest[..n];
    }
  }

  lemma CleanOfJoin(segs: seq<string>)
    requires AreSegments(segs)
    ensures Clean(Join(segs)) == if Normalize(segs) == [] then "." else Join(Normalize(segs))
  {
    if segs == [] {
      IndexOfAbsent("", '/');
      assert Split("") == [""];
      assert Normalize([""]) == [];
    } else {
      SplitJoin(segs);
    }
  }

  lemma JoinedCleanly(f: seq<string>, g: seq<string>, rest: seq<string>)
    requires AreSegments(f) && AreSegments(g) && AreSegments(rest) && Normalize(f) == Normalize(g)
    ensures Clean(Join(f + rest)) == Clean(Join(g + rest))
  {
    NormalizeContinues(f, g, rest);
    CleanOfJoin(f + rest);
    CleanOfJoin(g + rest);
  }

  /** An empty or "." segment is dropped wherever it stands. */
  lemma CleanDropsDots(front: seq<string>, x: string, rest: seq<string>)
    requires AreSegments(front) && AreSegments(rest) && (x == "" || x == ".")
    ensures Clean(Join(front + [x] + rest)) == Clean(Join(front + rest))
  {
    assert (front + [x])[..|front|] == front;
    assert AreSegments(front + [x]);
    JoinedCleanly(front + [x], front, rest);
  }

  /** A ".." is dropped together with the name before it. */
  lemma CleanResolvesParents(front: seq<string>, name: string, rest: seq<string>)
    requires AreSegments(front) && AreSegments(rest)
    requires name != "" && name != "." && name != ".." && '/' !in name
    ensures Clean(Join(front + [name, ".."] + rest)) == Clean(Join(front + rest))
  {
    var f1, f2 := front + [name], front + [name, ".."];
    assert f1[..|front|] == front && f2[..|f1|] == f1;
    assert Normalize(f1) == Normalize(front) + [name];
    assert Normalize(f2) == Normalize(front);
    assert AreSegments(f2);
    JoinedCleanly(f2, front, rest);
  }

  /** And a path with nothing to drop stays as it is, but for the empty one. */
  lemma CleanKeepsNormal(segs: seq<string>)
    requires AreSegments(segs)
    requires forall i :: 0 <= i < |segs| ==>
               segs[i] != "" && segs[i] != "." && (segs[i] == ".." && i > 0 ==> segs[i - 1] == "..")
    ensures Clean(Join(segs)) == if segs == [] then "." else Join(segs)
  {
    CleanOfJoin(segs);
    NormalizeFixpoint(segs);
  }
}
