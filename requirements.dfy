/** Reading the requirements file (download_wheels.py:310-321): every line is
    stripped, blank lines, comment lines and option lines are dropped, and an
    inline ` #` comment is cut off. */
module Requirements {
  import opened Seqs
  import opened PyStr

  datatype Option<T> = None | Some(value: T)

  /** `s[i:i+2] == ' #'`. */
  predicate CommentAt(s: string, i: int) {
    0 <= i && i + 1 < |s| && s[i] == ' ' && s[i + 1] == '#'
  }

  /** `' #' not in s`. */
  predicate NoInlineComment(s: string) {
    forall i :: 0 <= i < |s| ==> !CommentAt(s, i)
  }

  /** Where `s.split(' #', 1)[0]` ends: the first ` #`, or `|s|` when there is
      none. */
  function CommentStart(s: string): (k: nat)
    ensures k <= |s|
    ensures k < |s| ==> CommentAt(s, k)
    ensures forall i :: 0 <= i < k ==> !CommentAt(s, i)
  {
    CommentFrom(s, 0)
  }

  /** The first ` #` at or after position `i`, or `|s|`. */
  function CommentFrom(s: string, i: nat): (k: nat)
    requires i <= |s|
    ensures i <= k <= |s|
    ensures k < |s| ==> CommentAt(s, k)
    ensures forall j :: i <= j < k ==> !CommentAt(s, j)
    decreases |s| - i
  {
    if i + 1 >= |s| then |s|
    else if CommentAt(s, i) then i
    else CommentFrom(s, i + 1)
  }

  /** What the filter keeps: a non-empty, stripped requirement that is
      neither a comment nor a pip option and carries no inline comment. */
  predicate IsRequirement(r: string) {
    r != [] && !IsSpace(r[0]) && !IsSpace(r[|r| - 1])
    && r[0] != '#' && r[0] != '-' && NoInlineComment(r)
  }

  /** The filter applied to one line (download_wheels.py:315-321). */
  function FilterLine(line: string): (r: Option<string>)
    ensures r.Some? ==> IsRequirement(r.value)
  {
    var spec := Strip(line);
    if spec == [] || StartsWith(spec, "#") then None
    else
      StartsWithFirst(spec, '#');
      var cut := CutComment(spec);
      if cut == [] then None
      else if StartsWith(cut, "-") || StartsWith(cut, "--") then None
      else
        StartsWithFirst(cut, '-');
        Some(cut)
  }

  /** `spec.split(' #', 1)[0].strip()` when `' #' in spec`, else `spec`
      (download_wheels.py:318), for a stripped, non-blank `spec`: a non-empty
      prefix of `spec`, so starting with the same character, that ends
      without whitespace and holds no ` #`. */
  function CutComment(spec: string): (cut: string)
    requires spec != [] && !IsSpace(spec[0]) && !IsSpace(spec[|spec| - 1])
    ensures cut != [] && |cut| <= |spec| && cut == spec[..|cut|] && cut[0] == spec[0]
    ensures !IsSpace(cut[|cut| - 1]) && NoInlineComment(cut)
    ensures NoInlineComment(spec) ==> cut == spec
  {
    var k := CommentStart(spec);
    if k < |spec| then
      assert k != 0 by { assert spec[0] != ' '; }
      var head := spec[..k];
      StripKeepsFirst(head);
      var cut := Strip(head);
      assert forall i :: 0 <= i < |cut| ==> cut[i] == spec[i];
      assert forall i :: 0 <= i < |cut| ==> CommentAt(cut, i) ==> CommentAt(spec, i);
      cut
    else
      assert forall i :: 0 <= i < |spec| ==> !CommentAt(spec, i);
      spec
  }

  /** The steps `CutComment` takes: strip what precedes the first ` #`, if
      there is one. */
  lemma CutCommentSteps(spec: string)
    requires spec != [] && !IsSpace(spec[0]) && !IsSpace(spec[|spec| - 1])
    ensures var k := CommentStart(spec);
      CutComment(spec) == if k < |spec| then Strip(spec[..k]) else spec
  {
  }

  /** A line is kept exactly when it is not blank once stripped and starts
      with neither `#` nor `-`. */
  lemma FilterLineKept(line: string)
    ensures var spec := Strip(line);
      FilterLine(line).Some? <==> spec != [] && spec[0] != '#' && spec[0] != '-'
  {
    var spec := Strip(line);
    if spec != [] {
      StartsWithFirst(spec, '#');
      if spec[0] != '#' {
        var cut := CutComment(spec);
        StartsWithFirst(cut, '-');
        StartsWithHead(cut, "--");
      }
    }
  }

  /** What is kept of a line is the stripped line cut at its first ` #`
      (then stripped); it is the whole stripped line when that holds no
      ` #`. */
  lemma FilterLineValue(line: string)
    requires FilterLine(line).Some?
    ensures var spec := Strip(line);
      var v := FilterLine(line).value;
      v == CutComment(spec) && |v| <= |spec| && v == spec[..|v|]
      && (NoInlineComment(spec) ==> v == spec)
  {
  }

  /** A non-empty string starts with the one-character string `[c]` exactly
      when its first character is `c`. */
  lemma StartsWithFirst(s: string, c: char)
    requires s != []
    ensures StartsWith(s, [c]) <==> s[0] == c
  {
    if s[0] == c { assert s[..1] == [c]; }
  }

  /** The `Some` values of `f` over `xs`, in order. */
  function FilterMap<T, U>(xs: seq<T>, f: T -> Option<U>): (ys: seq<U>)
    ensures |ys| <= |xs|
  {
    if xs == [] then []
    else
      FilterMap(xs[..|xs| - 1], f)
      + match f(xs[|xs| - 1]) case Some(y) => [y] case None => []
  }

  /** `FilterMap` keeps order: it distributes over concatenation. */
  lemma {:induction false} FilterMapAppend<T, U>(a: seq<T>, b: seq<T>, f: T -> Option<U>)
    ensures FilterMap(a + b, f) == FilterMap(a, f) + FilterMap(b, f)
    decreases |b|
  {
    if b == [] {
      assert a + b == a;
    } else {
      var c := a + b;
      InitOfAppend(a, b);
      assert c[|c| - 1] == b[|b| - 1];
      FilterMapAppend(a, b[..|b| - 1], f);
      var last := match f(b[|b| - 1]) case Some(y) => [y] case None => [];
      assert FilterMap(a, f) + FilterMap(b[..|b| - 1], f) + last
          == FilterMap(a, f) + (FilterMap(b[..|b| - 1], f) + last);
    }
  }

  /** The filtered prefix grows by the image of the next element. */
  lemma FilterMapStep<T, U>(xs: seq<T>, i: nat, f: T -> Option<U>)
    requires i < |xs|
    ensures FilterMap(xs[..i + 1], f) == FilterMap(xs[..i], f) + match f(xs[i]) case Some(y) => [y] case None => []
  {
    assert xs[..i + 1][..i] == xs[..i];
  }

  /** A value is in `FilterMap(xs, f)` exactly when `f` maps some element to it. */
  lemma {:induction false} InFilterMap<T, U>(y: U, xs: seq<T>, f: T -> Option<U>)
    ensures y in FilterMap(xs, f) <==> exists i :: 0 <= i < |xs| && f(xs[i]) == Some(y)
  {
    if xs != [] {
      var init := xs[..|xs| - 1];
      InFilterMap(y, init, f);
      if y in FilterMap(xs, f) {
        if y in FilterMap(init, f) {
          var i :| 0 <= i < |init| && f(init[i]) == Some(y);
          assert xs[i] == init[i];
        } else {
          assert f(xs[|xs| - 1]) == Some(y);
        }
      }
      if exists i :: 0 <= i < |xs| && f(xs[i]) == Some(y) {
        var i :| 0 <= i < |xs| && f(xs[i]) == Some(y);
        if i < |init| {
          assert init[i] == xs[i];
        }
      }
    }
  }

  /** `valid_package_lines` for the lines of the file, in file order. */
  function ValidLines(lines: seq<string>): (valid: seq<string>)
    ensures |valid| <= |lines|
  {
    FilterMap(lines, FilterLine)
  }

  /** The reading loop of download_wheels.py:314-321. */
  method ReadValidLines(lines: seq<string>) returns (valid: seq<string>)
    ensures valid == ValidLines(lines)
  {
    valid := [];
    for i := 0 to |lines|
      invariant valid == ValidLines(lines[..i])
    {
      FilterMapStep(lines, i, FilterLine);
      var packageSpec := FilterOne(lines[i]);
      if packageSpec.Some? {
        valid := valid + [packageSpec.value];
      }
    }
    assert lines[..|lines|] == lines;
  }

  /** One pass of the reading loop (download_wheels.py:315-321): strip the
      line, skip it if blank or a comment, cut an inline comment, skip an
      option line; what is left is the requirement. */
  method FilterOne(line: string) returns (r: Option<string>)
    ensures r == FilterLine(line)
  {
    var packageSpec := Strip(line);
    if packageSpec == [] || StartsWith(packageSpec, "#") {
      return None;
    }
    CutCommentSteps(packageSpec);
    var k := CommentStart(packageSpec);
    if k < |packageSpec| {
      packageSpec := Strip(packageSpec[..k]);
    }
    if packageSpec == [] || StartsWith(packageSpec, "-") || StartsWith(packageSpec, "--") {
      return None;
    }
    return Some(packageSpec);
  }

  /** Every kept entry is a well-formed requirement. */
  lemma ValidLinesAreRequirements(lines: seq<string>)
    ensures forall v :: v in ValidLines(lines) ==> IsRequirement(v)
  {
    forall v | v in ValidLines(lines) ensures IsRequirement(v) {
      InFilterMap(v, lines, FilterLine);
    }
  }

  /** The filter keeps file order: the requirements of two consecutive runs
      of lines are those of the first run followed by those of the second. */
  lemma ValidLinesAppend(a: seq<string>, b: seq<string>)
    ensures ValidLines(a + b) == ValidLines(a) + ValidLines(b)
  {
    FilterMapAppend(a, b, FilterLine);
  }

  /** A requirement is kept exactly when some line filters to it. */
  lemma InValidLines(v: string, lines: seq<string>)
    ensures v in ValidLines(lines) <==> exists i :: 0 <= i < |lines| && FilterLine(lines[i]) == Some(v)
  {
    InFilterMap(v, lines, FilterLine);
  }

  /** A requirement line, with whatever whitespace (a line break) around
      it, is kept as it is. */
  lemma KeepsRequirement(pre: string, req: string, post: string)
    requires forall i :: 0 <= i < |pre| ==> IsSpace(pre[i])
    requires forall i :: 0 <= i < |post| ==> IsSpace(post[i])
    requires IsRequirement(req)
    ensures FilterLine(pre + req + post) == Some(req)
  {
    StripAround(pre, req, post);
    FilterLineKept(pre + req + post);
    FilterLineValue(pre + req + post);
  }

  /** A requirement followed by an inline comment is kept without the
      comment and without the space before it. */
  lemma DropsInlineComment(req: string, comment: string, post: string)
    requires IsRequirement(req)
    requires comment != [] && !IsSpace(comment[|comment| - 1])
    requires forall i :: 0 <= i < |post| ==> IsSpace(post[i])
    ensures FilterLine(req + " #" + comment + post) == Some(req)
  {
    var rest := " #" + comment;
    var spec := req + rest;
    assert req + " #" + comment + post == "" + spec + post by {
      AppendAssoc(req, " #", comment);
      assert "" + spec == spec;
    }
    assert spec[0] == req[0] && spec[|spec| - 1] == comment[|comment| - 1];
    StripAround("", spec, post);
    CutAtFirstComment(req, rest);
    FilterLineOfStripped("" + spec + post, req);
  }

  /** A line whose stripped form cuts down to a requirement is kept as that
      requirement. */
  lemma FilterLineOfStripped(line: string, req: string)
    requires IsRequirement(req) && Strip(line) != [] && Strip(line)[0] == req[0]
    requires CutComment(Strip(line)) == req
    ensures FilterLine(line) == Some(req)
  {
    var spec := Strip(line);
    StartsWithFirst(spec, '#');
    StartsWithFirst(req, '-');
    StartsWithHead(req, "--");
  }

  /** Cutting a requirement followed by ` #` and more gives the requirement. */
  lemma CutAtFirstComment(req: string, rest: string)
    requires IsRequirement(req)
    requires |rest| >= 2 && rest[0] == ' ' && rest[1] == '#' && !IsSpace(rest[|rest| - 1])
    ensures CutComment(req + rest) == req
  {
    var s := req + rest;
    assert CommentAt(s, |req|);
    forall i | 0 <= i < |req| ensures !CommentAt(s, i) {
      if i + 1 < |req| {
        assert !CommentAt(req, i);
      } else {
        assert s[i] == req[|req| - 1];
      }
    }
    assert CommentStart(s) == |req|;
    assert s[..|req|] == req;
    StripTrimmed(req);
  }
}
