/** Everything the downloader derives from one requirement string: its bare
    name, the sanitised directory name, the spec actually handed to pip, and
    the pip command line (download_wheels.py:50-71, 123, 201-202, 224-225). */
module Names {
  import opened PyStr

  /** The characters of the character class `[<>=!~]` at download_wheels.py:123. */
  predicate IsOperatorChar(c: char) {
    c == '<' || c == '>' || c == '=' || c == '!' || c == '~'
  }

  /** `re.split(r'[<>=!~]', s)[0]`: everything before the first operator
      character. */
  function BeforeOperator(s: string): (r: string)
    ensures |r| <= |s| && r == s[..|r|]
    ensures forall i :: 0 <= i < |r| ==> !IsOperatorChar(r[i])
    ensures |r| < |s| ==> IsOperatorChar(s[|r|])
  {
    if s == [] || IsOperatorChar(s[0]) then [] else [s[0]] + BeforeOperator(s[1..])
  }

  /** The bare package name of a requirement (download_wheels.py:123): the part
      before the first version operator, stripped. It holds no operator
      character and neither starts nor ends with whitespace. */
  function BareName(spec: string): (name: string)
    ensures |name| <= |spec|
    ensures forall i :: 0 <= i < |name| ==> !IsOperatorChar(name[i])
    ensures name != [] ==> !IsSpace(name[0]) && !IsSpace(name[|name| - 1])
  {
    var before := BeforeOperator(spec);
    StripInfix(before);
    InfixChars(before, |before| - |LStrip(before)|, Strip(before));
    Strip(before)
  }

  /** The characters of an infix are characters of the whole. */
  lemma InfixChars(s: string, k: nat, r: string)
    requires k + |r| <= |s| && r == s[k..k + |r|]
    ensures forall i :: 0 <= i < |r| ==> r[i] == s[k + i]
  {
  }

  /** The bare name of a requirement is the stripped text before its first
      operator character: whitespace, a trimmed operator-free name,
      whitespace, an operator and anything at all give back the name. */
  lemma BareNameOf(pre: string, core: string, ws: string, op: char, rest: string)
    requires forall i :: 0 <= i < |pre| ==> IsSpace(pre[i])
    requires forall i :: 0 <= i < |ws| ==> IsSpace(ws[i])
    requires core != [] && !IsSpace(core[0]) && !IsSpace(core[|core| - 1])
    requires forall i :: 0 <= i < |core| ==> !IsOperatorChar(core[i])
    requires IsOperatorChar(op)
    ensures BareName(pre + core + ws + [op] + rest) == core
  {
    var x := pre + core + ws;
    forall i | 0 <= i < |x| ensures !IsOperatorChar(x[i]) {
      if i < |pre| {
        assert x[i] == pre[i];
      } else if i < |pre| + |core| {
        assert x[i] == core[i - |pre|];
      } else {
        assert x[i] == ws[i - |pre| - |core|];
      }
    }
    BeforeOperatorOf(x, op, rest);
    assert pre + core + ws + [op] + rest == x + [op] + rest;
    StripAround(pre, core, ws);
  }

  /** A requirement with nothing but whitespace before its first operator
      character, such as `==1.0`, has the empty bare name. */
  lemma BareNameBlank(pre: string, op: char, rest: string)
    requires forall i :: 0 <= i < |pre| ==> IsSpace(pre[i])
    requires IsOperatorChar(op)
    ensures BareName(pre + [op] + rest) == []
  {
    forall i | 0 <= i < |pre| ensures !IsOperatorChar(pre[i]) {
      assert IsSpace(pre[i]);
    }
    BeforeOperatorOf(pre, op, rest);
    StripBlank(pre);
  }

  /** What precedes the first operator character is cut off there. */
  lemma BeforeOperatorOf(x: string, op: char, rest: string)
    requires forall i :: 0 <= i < |x| ==> !IsOperatorChar(x[i])
    requires IsOperatorChar(op)
    ensures BeforeOperator(x + [op] + rest) == x
  {
    var s := x + [op] + rest;
    assert s[|x|] == op;
    assert forall i :: 0 <= i < |x| ==> s[i] == x[i];
    assert s[..|x|] == x;
  }

  /** A requirement without any version operator is its own bare name once
      stripped. */
  lemma {:induction false} BareNameWithoutOperator(spec: string)
    requires forall i :: 0 <= i < |spec| ==> !IsOperatorChar(spec[i])
    ensures BareName(spec) == Strip(spec)
  {
    assert BeforeOperator(spec) == spec;
  }

  /** The characters kept by `re.sub(r'[^a-zA-Z0-9_-]', '', ...)`. */
  predicate IsDirChar(c: char) {
    ('a' <= c <= 'z') || ('A' <= c <= 'Z') || ('0' <= c <= '9') || c == '_' || c == '-'
  }

  /** `a` is a subsequence of `b`: `b` with some characters deleted. */
  predicate IsSubsequence(a: string, b: string)
    decreases |b|
  {
    if a == [] then true
    else if b == [] then false
    else if a[0] == b[0] then IsSubsequence(a[1..], b[1..])
    else IsSubsequence(a, b[1..])
  }

  /** Directory-name sanitisation (download_wheels.py:50 and 224): the result
      holds only `[a-zA-Z0-9_-]` and leaves a string made only of those
      characters unchanged. */
  function Sanitize(s: string): (r: string)
    ensures forall i :: 0 <= i < |r| ==> IsDirChar(r[i])
    ensures (forall i :: 0 <= i < |s| ==> IsDirChar(s[i])) ==> r == s
  {
    if s == [] then []
    else if IsDirChar(s[0]) then [s[0]] + Sanitize(s[1..])
    else Sanitize(s[1..])
  }

  /** The sanitised name is the input with characters deleted, never
      reordered or replaced. */
  lemma {:induction false} SanitizeIsSubsequence(s: string)
    ensures IsSubsequence(Sanitize(s), s)
  {
    if s != [] {
      SanitizeIsSubsequence(s[1..]);
      var rest := Sanitize(s[1..]);
      if IsDirChar(s[0]) {
        assert ([s[0]] + rest)[1..] == rest;
      } else if rest != [] {
        assert IsDirChar(rest[0]);
      }
    }
  }

  /** Sanitising is idempotent. */
  lemma SanitizeIdempotent(s: string)
    ensures Sanitize(Sanitize(s)) == Sanitize(s)
  {
  }

  /** Sanitising works character by character: it distributes over
      concatenation, so the kept characters stay in their order. */
  lemma {:induction false} SanitizeAppend(a: string, b: string)
    ensures Sanitize(a + b) == Sanitize(a) + Sanitize(b)
  {
    if a == [] {
      assert a + b == b;
    } else {
      assert (a + b)[0] == a[0];
      assert (a + b)[1..] == a[1..] + b;
      SanitizeAppend(a[1..], b);
      if IsDirChar(a[0]) {
        assert Sanitize(a + b) == [a[0]] + (Sanitize(a[1..]) + Sanitize(b));
      } else {
        assert Sanitize(a + b) == Sanitize(a[1..]) + Sanitize(b);
      }
    }
  }

  /** Sanitising can map two different names to one directory: dropping the
      dot merges `a.b` with `ab`, e.g. `zope.interface` with `zopeinterface`. */
  lemma SanitizeMergesDotted(a: string, b: string)
    ensures Sanitize(a + "." + b) == Sanitize(a + b) == Sanitize(a) + Sanitize(b)
  {
    assert a + "." + b == a + ("." + b);
    SanitizeAppend(a, "." + b);
    SanitizeAppend(".", b);
    SanitizeAppend(a, b);
  }

  /** `os.path.join(dir, name)` with POSIX rules. */
  function JoinPath(dir: string, name: string): string {
    if StartsWith(name, "/") then name
    else if dir == [] || dir[|dir| - 1] == '/' then dir + name
    else dir + "/" + name
  }

  /** The per-package subdirectory `os.path.join(download_dir,
      sanitized_name)` (download_wheels.py:50-52, 224-225). It lies under
      `downloadDir` and ends with the sanitised name. */
  function PackageSubdir(downloadDir: string, name: string): (path: string)
    ensures |downloadDir| <= |path| && path[..|downloadDir|] == downloadDir
    ensures |Sanitize(name)| <= |path| && path[|path| - |Sanitize(name)|..] == Sanitize(name)
  {
    var sanitized := Sanitize(name);
    SanitizedIsRelative(name);
    JoinPath(downloadDir, sanitized)
  }

  /** A sanitised name never starts with `/`, so joining it never discards
      the download directory. */
  lemma SanitizedIsRelative(name: string)
    ensures !StartsWith(Sanitize(name), "/")
  {
    var sanitized := Sanitize(name);
    if sanitized != [] { assert IsDirChar(sanitized[0]); }
  }

  /** Joining relative names under one directory is injective. */
  lemma JoinPathInjective(dir: string, x: string, y: string)
    requires !StartsWith(x, "/") && !StartsWith(y, "/")
    ensures JoinPath(dir, x) == JoinPath(dir, y) <==> x == y
  {
    var p := if dir == [] || dir[|dir| - 1] == '/' then dir else dir + "/";
    assert JoinPath(dir, x) == p + x;
    assert JoinPath(dir, y) == p + y;
    if p + x == p + y {
      assert x == (p + x)[|p|..];
      assert y == (p + y)[|p|..];
    }
  }

  /** Within one download directory, two requirements share a subdirectory
      exactly when their names sanitise to the same string. */
  lemma PackageSubdirInjective(downloadDir: string, a: string, b: string)
    ensures PackageSubdir(downloadDir, a) == PackageSubdir(downloadDir, b)
        <==> Sanitize(a) == Sanitize(b)
  {
    SanitizedIsRelative(a);
    SanitizedIsRelative(b);
    JoinPathInjective(downloadDir, Sanitize(a), Sanitize(b));
  }

  /** The override table `known_dependencies` (download_wheels.py:201). */
  const KNOWN_DEPENDENCIES: map<string, string> := map["pyautogui" := "pyautogui setuptools wheel"]

  /** `known_dependencies.get(name.lower(), spec)` (download_wheels.py:202):
      the requirement itself unless the lower-cased bare name is `pyautogui`,
      in which case it is the fixed three-package spec. */
  function SpecForPip(name: string, spec: string): (r: string)
    ensures Lower(name) == "pyautogui" ==> r == "pyautogui setuptools wheel"
    ensures Lower(name) != "pyautogui" ==> r == spec
  {
    var key := Lower(name);
    if key in KNOWN_DEPENDENCIES then KNOWN_DEPENDENCIES[key] else spec
  }

  /** The override matches the name without regard to ASCII case: any
      mixture of upper- and lower-case letters of `pyautogui` hands pip
      three separate requirements. */
  lemma PyAutoGuiOverride(name: string, spec: string)
    requires |name| == 9
    requires forall i :: 0 <= i < 9 ==> name[i] == "pyautogui"[i] || name[i] == "PYAUTOGUI"[i]
    ensures Split(SpecForPip(name, spec)) == ["pyautogui", "setuptools", "wheel"]
  {
    forall i | 0 <= i < 9 ensures Lower(name)[i] == "pyautogui"[i] {
      CaseLetter(i);
    }
    assert Lower(name) == "pyautogui";
    OverrideWords();
  }

  /** The `i`-th letter of `pyautogui` is a lower-case ASCII letter whose
      upper-case form is the `i`-th letter of `PYAUTOGUI`. */
  lemma CaseLetter(i: nat)
    requires i < 9
    ensures 'a' <= "pyautogui"[i] <= 'z' && 'A' <= "PYAUTOGUI"[i] <= 'Z'
    ensures ("PYAUTOGUI"[i] as int + 32) as char == "pyautogui"[i]
  {
    if i == 0 {} else if i == 1 {} else if i == 2 {} else if i == 3 {}
    else if i == 4 {} else if i == 5 {} else if i == 6 {} else if i == 7 {} else {}
  }

  /** The override spec is three words. */
  lemma OverrideWords()
    ensures Split("pyautogui setuptools wheel") == ["pyautogui", "setuptools", "wheel"]
  {
    var words := ["pyautogui", "setuptools", "wheel"];
    assert JoinSpaced(words) == "pyautogui setuptools wheel";
    forall i | 0 <= i < |words| ensures words[i] != [] && NoSpace(words[i]) {
      LowerLettersNoSpace(words[i]);
    }
    SplitJoinSpaced(words);
  }

  /** A word of lower-case ASCII letters holds no whitespace. */
  lemma LowerLettersNoSpace(w: string)
    requires forall i :: 0 <= i < |w| ==> 'a' <= w[i] <= 'z'
    ensures NoSpace(w)
  {
  }

  /** The five fixed leading arguments of every pip call
      (download_wheels.py:64-68). */
  function BaseCommand(subdir: string): seq<string> {
    ["pip", "download", "--dest", subdir, "--disable-pip-version-check"]
  }

  /** `base_command + extra_args + package_spec.split()` (download_wheels.py:70-71). */
  function Command(subdir: string, strategy: seq<string>, spec: string): (cmd: seq<string>)
    ensures |cmd| == 5 + |strategy| + |Split(spec)|
  {
    BaseCommand(subdir) + strategy + Split(spec)
  }

  /** A command line determines its parts: the destination is its fourth
      argument, the strategy follows the five base arguments, and the words of
      the spec close it. So two commands with strategies of the same length
      agree exactly when destination, strategy and spec words all agree. */
  lemma CommandParts(subdir: string, strategy: seq<string>, spec: string)
    ensures var cmd := Command(subdir, strategy, spec);
      cmd[..5] == BaseCommand(subdir) && cmd[3] == subdir
      && cmd[5..5 + |strategy|] == strategy
      && cmd[5 + |strategy|..] == Split(spec)
  {
    CommandLayout(subdir, strategy, Split(spec));
  }

  /** `CommandParts` for any list of spec words. */
  lemma CommandLayout(subdir: string, strategy: seq<string>, words: seq<string>)
    ensures var cmd := BaseCommand(subdir) + strategy + words;
      cmd[..5] == BaseCommand(subdir) && cmd[3] == subdir
      && cmd[5..5 + |strategy|] == strategy
      && cmd[5 + |strategy|..] == words
  {
    var base := BaseCommand(subdir);
    assert |base| == 5 && base[3] == subdir;
    ConcatParts(base, strategy, words);
    assert (base + strategy + words)[3] == base[3];
  }

  /** Slicing a three-part concatenation gives back its parts. */
  lemma ConcatParts<T>(a: seq<T>, b: seq<T>, c: seq<T>)
    ensures var x := a + b + c;
      x[..|a|] == a && x[|a|..|a| + |b|] == b && x[|a| + |b|..] == c
  {
    assert a + b + c == a + (b + c);
  }

  /** As a consequence of `CommandParts`, the command is injective in its
      parts once the strategy length is fixed. */
  lemma CommandInjective(d1: string, s1: seq<string>, p1: string, d2: string, s2: seq<string>, p2: string)
    requires |s1| == |s2|
    ensures Command(d1, s1, p1) == Command(d2, s2, p2)
        <==> d1 == d2 && s1 == s2 && Split(p1) == Split(p2)
  {
    CommandParts(d1, s1, p1);
    CommandParts(d2, s2, p2);
  }

  /** A requirement written with spaces around its operator reaches pip as
      several arguments, because the whole spec is split on whitespace. */
  lemma SpacedSpecIsSplit()
    ensures Split("requests >= 2.31") == ["requests", ">=", "2.31"]
  {
    assert JoinSpaced(["requests", ">=", "2.31"]) == "requests >= 2.31";
    SplitJoinSpaced(["requests", ">=", "2.31"]);
  }
}
