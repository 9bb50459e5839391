/**
 Names of received files (receiver.rs): the `.partial` residue beside a path and the search
 for a free name `stem(n).ext` when a file of that name is already there.
 Paths are a directory and a final component.
 */
module Names {
  import opened Bytes

  datatype Path = Path(dir: string, name: string)

  type Files = map<Path, seq<byte>>

  const PARTIAL := ".partial"

  function PartialFor(p: Path): Path {
    p.(name := p.name + PARTIAL)
  }

  predicate EndsWith(s: string, suffix: string) {
    |suffix| <= |s| && s[|s| - |suffix|..] == suffix
  }

  // ---------- Stem and extension ----------

  /** Index of the last dot, or the length when there is none. */
  function LastDot(name: string): (d: nat)
    ensures d <= |name|
    ensures d < |name| ==> name[d] == '.'
    ensures forall i | d < i < |name| :: name[i] != '.'
    ensures d == |name| ==> '.' !in name
  {
    if name == [] then 0
    else if name[|name| - 1] == '.' then |name| - 1
    else
      var d := LastDot(name[..|name| - 1]);
      if d == |name| - 1 then |name| else d
  }

  predicate HasExtension(name: string) {
    name != ".." && 0 < LastDot(name) < |name|
  }

  function Stem(name: string): string {
    if HasExtension(name) then name[..LastDot(name)] else name
  }

  /** With its dot; empty without an extension. */
  function Extension(name: string): string {
    if HasExtension(name) then name[LastDot(name)..] else ""
  }

  predicate Dotted(s: string) {
    s != [] && s[0] == '.' && '.' !in s[1..]
  }

  /** The two parts make up the name; the second is empty or starts at its last dot, and never takes the whole name. */
  lemma StemAndExtension(name: string)
    ensures Stem(name) + Extension(name) == name
    ensures name != "" ==> Stem(name) != ""
    ensures Extension(name) != "" ==> Dotted(Extension(name))
    ensures Extension(name) == "" <==> (name == ".." || '.' !in name || (name[0] == '.' && '.' !in name[1..]))
  {
    var d := LastDot(name);
    if HasExtension(name) {
      assert name[d..][0] == '.' && '.' !in name[d..][1..];
      assert '.' in name && (name[0] == '.' ==> name[1..][d - 1] == '.');
    }
  }

  // ---------- Decimal numerals ----------

  function Digit(d: nat): char
    requires d < 10
  {
    ('0' as int + d) as char
  }

  function Decimal(n: nat): (s: string)
    ensures |s| >= 1
  {
    if n < 10 then [Digit(n)] else Decimal(n / 10) + [Digit(n % 10)]
  }

  function Value(s: string): int {
    if s == [] then 0 else Value(s[..|s| - 1]) * 10 + (s[|s| - 1] as int - '0' as int)
  }

  lemma {:induction false} ValueOfDecimal(n: nat)
    ensures Value(Decimal(n)) == n
  {
    if n < 10 {
      assert Decimal(n)[..0] == [];
      assert Value([]) == 0;
    } else {
      var s := Decimal(n);
      assert s[..|s| - 1] == Decimal(n / 10);
      ValueOfDecimal(n / 10);
    }
  }

  // ---------- Candidates ----------

  function Numbering(n: nat): string {
    "(" + Decimal(n) + ")"
  }

  function Candidate(name: string, n: nat): string {
    Stem(name) + Numbering(n) + Extension(name)
  }

  lemma {:induction false} DecimalHasDigits(n: nat)
    ensures forall i | 0 <= i < |Decimal(n)| :: '0' <= Decimal(n)[i] <= '9'
  {
    if n >= 10 { DecimalHasDigits(n / 10); }
  }

  lemma LastDotIs(name: string, d: nat)
    requires d < |name| && name[d] == '.' && forall i | d < i < |name| :: name[i] != '.'
    ensures LastDot(name) == d
  {
  }

  /** A name made of two parts of which the second starts with its last dot. */
  lemma SplitsAt(stem: string, ext: string)
    requires stem != "" && stem != "." && Dotted(ext)
    ensures Stem(stem + ext) == stem && Extension(stem + ext) == ext
  {
    var c := stem + ext;
    assert forall i | 0 < i < |ext| :: ext[i] == ext[1..][i - 1];
    LastDotIs(c, |stem|);
    assert c[..|stem|] == stem && c[|stem|..] == ext;
  }

  lemma SplitsNowhere(front: string, number: string)
    requires front == "" || (front[0] == '.' && '.' !in front[1..]) || '.' !in front
    requires '.' !in number
    ensures Stem(front + number) == front + number && Extension(front + number) == ""
  {
    var c := front + number;
    assert forall i | 0 < i < |front| :: front[i] == front[1..][i - 1];
    if front != "" && front[0] == '.' { LastDotIs(c, 0); }
  }

  lemma NumberHasNoDot(n: nat)
    ensures '.' !in Numbering(n)
  {
    DecimalHasDigits(n);
  }

  /** The number stands between the wanted name's stem and its extension, which both stay what they are. */
  lemma CandidateParts(name: string, n: nat)
    ensures Extension(Candidate(name, n)) == Extension(name) <==> name != ".."
    ensures name != ".." ==> Stem(Candidate(name, n)) == Stem(name) + Numbering(n)
  {
    NumberHasNoDot(n);
    StemAndExtension(name);
    if name == ".." {
      LastDotIs(Candidate(name, n), 1);
    } else if Extension(name) == "" {
      SplitsNowhere(name, Numbering(n));
    } else {
      SplitsAt(Stem(name) + Numbering(n), Extension(name));
    }
  }

  /** The names the repository's own tests expect, and a later one. */
  lemma SomeCandidates()
    ensures Candidate("a.txt", 1) == "a(1).txt" && Candidate("README", 1) == "README(1)"
    ensures Numbering(10) == "(10)" && PartialFor(Path("d", "a.txt")) == Path("d", "a.txt.partial")
  {
    LastDotIs("a.txt", 1);
    assert "a.txt"[..1] == "a" && "a.txt"[1..] == ".txt";
    assert Numbering(1) == "(1)" by { assert Decimal(1) == "1"; }
    assert Decimal(10) == "10";
  }

  lemma MiddleUnique(a: string, x: string, y: string, b: string)
    requires a + x + b == a + y + b
    ensures x == y
  {
    var s, t := a + x + b, a + y + b;
    assert s[|a|..|s| - |b|] == x && t[|a|..|t| - |b|] == y;
  }

  lemma CandidatesDiffer(name: string, m: nat, n: nat)
    requires m != n
    ensures Candidate(name, m) != Candidate(name, n)
  {
    if Candidate(name, m) == Candidate(name, n) {
      MiddleUnique(Stem(name), Numbering(m), Numbering(n), Extension(name));
      MiddleUnique("(", Decimal(m), Decimal(n), ")");
      ValueOfDecimal(m);
      ValueOfDecimal(n);
    }
  }

  /** Of the suffixes of a name, one alone starts with its last dot. */
  lemma DottedSuffixUnique(s: string, a: string, b: string)
    requires EndsWith(s, a) && EndsWith(s, b) && Dotted(a) && Dotted(b)
    ensures a == b
  {
    var i, j := |s| - |a|, |s| - |b|;
    assert s[i..][0] == s[i] && s[j..][0] == s[j];
    assert forall k | i < k < |s| :: s[k] == a[1..][k - i - 1];
    assert forall k | j < k < |s| :: s[k] == b[1..][k - j - 1];
  }

  /** A candidate never looks like a residue unless the wanted name does. */
  lemma CandidateIsNoResidue(name: string, n: nat)
    requires !EndsWith(name, PARTIAL)
    ensures !EndsWith(Candidate(name, n), PARTIAL)
  {
    var c, ext := Candidate(name, n), Extension(name);
    assert EndsWith(c, ext);
    assert PARTIAL[7] == 'l' && Dotted(PARTIAL);
    assert ext == "" ==> c[|c| - 1] == ')';
    assert ext != "" ==> Dotted(ext) && EndsWith(name, ext);
    if EndsWith(c, PARTIAL) && ext != "" {
      DottedSuffixUnique(c, ext, PARTIAL);
    }
  }

  // ---------- The free-name search ----------

  /** `r` is the wanted path if it is free, else the candidate with the least free number. */
  ghost predicate FreePath(files: Files, dir: string, name: string, r: Path) {
    r !in files &&
    if Path(dir, name) !in files then r == Path(dir, name)
    else exists n: nat :: n >= 1 && r == Path(dir, Candidate(name, n)) && AllTaken(files, dir, name, n)
  }

  ghost predicate AllTaken(files: Files, dir: string, name: string, n: nat) {
    forall k: nat | 1 <= k < n :: Path(dir, Candidate(name, k)) in files
  }

  lemma FreePathUnique(files: Files, dir: string, name: string, r: Path, r': Path)
    requires FreePath(files, dir, name, r) && FreePath(files, dir, name, r')
    ensures r == r'
  {
    if Path(dir, name) in files {
      var n: nat :| n >= 1 && r == Path(dir, Candidate(name, n)) && AllTaken(files, dir, name, n);
      var n': nat :| n' >= 1 && r' == Path(dir, Candidate(name, n')) && AllTaken(files, dir, name, n');
      assert n < n' ==> r in files;
      assert n' < n ==> r' in files;
    }
  }

  /** Counting starts at 1 and goes up by one: with all before it taken, the first free candidate is the answer, and the only one. */
  lemma FirstFreeIsChosen(files: Files, dir: string, name: string, n: nat, r: Path)
    requires n >= 1 && Path(dir, name) in files && Path(dir, Candidate(name, n)) !in files
    requires forall k: nat | 1 <= k < n :: Path(dir, Candidate(name, k)) in files
    ensures FreePath(files, dir, name, r) <==> r == Path(dir, Candidate(name, n))
  {
    assert AllTaken(files, dir, name, n);
    assert FreePath(files, dir, name, Path(dir, Candidate(name, n)));
    if FreePath(files, dir, name, r) {
      FreePathUnique(files, dir, name, r, Path(dir, Candidate(name, n)));
    }
  }

  /** Two listings that differ in residues only. */
  ghost predicate SameButResidues(files: Files, files': Files, dir: string) {
    forall n: string | !EndsWith(n, PARTIAL) :: Path(dir, n) in files <==> Path(dir, n) in files'
  }

  lemma FreePathKept(files: Files, files': Files, dir: string, name: string, r: Path)
    requires SameButResidues(files, files', dir) && !EndsWith(name, PARTIAL) && FreePath(files, dir, name, r)
    ensures FreePath(files', dir, name, r)
  {
    if Path(dir, name) in files {
      var n: nat :| n >= 1 && r == Path(dir, Candidate(name, n)) && AllTaken(files, dir, name, n);
      forall k: nat | 1 <= k < n ensures Path(dir, Candidate(name, k)) in files' { CandidateIsNoResidue(name, k); }
      CandidateIsNoResidue(name, n);
    }
  }

  /** The chosen path does not depend on residues exactly when the wanted name is not itself one. */
  lemma FreePathIgnoresResidues(dir: string, name: string)
    ensures (forall files, files', r | SameButResidues(files, files', dir) ::
               FreePath(files, dir, name, r) <==> FreePath(files', dir, name, r))
       <==> !EndsWith(name, PARTIAL)
  {
    if !EndsWith(name, PARTIAL) {
      forall files, files', r | SameButResidues(files, files', dir)
        ensures FreePath(files, dir, name, r) <==> FreePath(files', dir, name, r)
      {
        if FreePath(files, dir, name, r) { FreePathKept(files, files', dir, name, r); }
        if FreePath(files', dir, name, r) { FreePathKept(files', files, dir, name, r); }
      }
    } else {
      var p := Path(dir, name);
      var none: Files, one: Files := map[], map[p := []];
      assert SameButResidues(none, one, dir);
      assert FreePath(none, dir, name, p) && !FreePath(one, dir, name, p);
    }
  }

  /** So a later attempt picks the same path and finds its residue. */
  lemma LaterAttemptFindsResidue(files: Files, dir: string, name: string, r: Path, residue: seq<byte>)
    requires !EndsWith(name, PARTIAL) && FreePath(files, dir, name, r)
    ensures FreePath(files[PartialFor(r) := residue], dir, name, r)
  {
    assert EndsWith(PartialFor(r).name, PARTIAL);
    FreePathKept(files, files[PartialFor(r) := residue], dir, name, r);
  }

  lemma SubsetSize<T>(a: set<T>, b: set<T>)
    requires a <= b
    ensures |a| <= |b|
  {
    assert b == a + (b - a);
  }

  ghost function Tried(dir: string, name: string, n: nat): set<Path>
    requires n >= 1
  {
    if n == 1 then {} else Tried(dir, name, n - 1) + {Path(dir, Candidate(name, n - 1))}
  }

  lemma {:induction false} TriedAreDifferent(dir: string, name: string, n: nat, m: nat)
    requires 1 <= n <= m
    ensures |Tried(dir, name, n)| == n - 1 && Path(dir, Candidate(name, m)) !in Tried(dir, name, n)
  {
    if n == 1 {
    } else {
      TriedAreDifferent(dir, name, n - 1, n - 1);
      TriedAreDifferent(dir, name, n - 1, m);
      CandidatesDiffer(name, n - 1, m);
    }
  }

  lemma {:induction false} TriedAreTaken(files: Files, dir: string, name: string, n: nat)
    requires n >= 1 && AllTaken(files, dir, name, n)
    ensures Tried(dir, name, n) <= files.Keys
  {
    if n == 1 {
    } else {
      TriedAreTaken(files, dir, name, n - 1);
    }
  }

  /** Pigeonhole: as many entries as taken candidates. */
  lemma TakenBound(files: Files, dir: string, name: string, n: nat)
    requires n >= 1 && AllTaken(files, dir, name, n)
    ensures n - 1 <= |files|
  {
    TriedAreDifferent(dir, name, n, n);
    TriedAreTaken(files, dir, name, n);
    SubsetSize(Tried(dir, name, n), files.Keys);
    assert |files.Keys| == |files|;
  }

  method ResolveSavePath(files: Files, dir: string, name: string) returns (r: Path)
    ensures FreePath(files, dir, name, r)
  {
    var target := Path(dir, name);
    if target !in files {
      return target;
    }
    var n := 1;
    while true
      invariant 1 <= n && AllTaken(files, dir, name, n)
      decreases |files| - n
    {
      var candidate := Path(dir, Candidate(name, n));
      if candidate !in files {
        return candidate;
      }
      n := n + 1;
      TakenBound(files, dir, name, n);
    }
  }
}
