/** Where an incoming file is stored: its cleaned name, numbered until no file has it. */
module Destination {
  import Decimal

  const FORBIDDEN: set<char> := {'/', '\\', ':', '*', '?', '"', '<', '>', '|'}

  // ---- Cleaning

  /** `replace("..", "")`: matches from the left, without overlap. */
  function RemoveDotDot(s: string): string
    decreases |s|
  {
    if |s| < 2 then s else
    if s[0] == '.' && s[1] == '.' then RemoveDotDot(s[2..]) else [s[0]] + RemoveDotDot(s[1..])
  }

  function RemoveForbidden(s: string): string
    decreases |s|
  {
    if s == [] then [] else (if s[0] in FORBIDDEN then [] else [s[0]]) + RemoveForbidden(s[1..])
  }

  function TrimDots(s: string): string
    decreases |s|
  {
    if s != [] && s[0] == '.' then TrimDots(s[1..]) else s
  }

  function SafeName(fileName: string): string {
    var name := TrimDots(RemoveForbidden(RemoveDotDot(fileName)));
    if name == [] then "unnamed_file" else name
  }

  predicate NoForbidden(s: string) { forall i | 0 <= i < |s| :: s[i] !in FORBIDDEN }

  /** One path component that is neither hidden nor special, and can be created everywhere. */
  predicate Component(s: string) { s != [] && s[0] != '.' && NoForbidden(s) }

  predicate HasDotDot(s: string) { exists i | 0 <= i < |s| - 1 :: s[i] == '.' && s[i + 1] == '.' }

  lemma {:induction false} RemoveForbiddenWorks(s: string)
    ensures NoForbidden(RemoveForbidden(s))
    decreases |s|
  {
    if s != [] {
      RemoveForbiddenWorks(s[1..]);
    }
  }

  lemma {:induction false} TrimDotsWorks(s: string)
    requires NoForbidden(s)
    ensures NoForbidden(TrimDots(s))
    ensures TrimDots(s) != [] ==> TrimDots(s)[0] != '.'
    decreases |s|
  {
    if s != [] && s[0] == '.' {
      TrimDotsWorks(s[1..]);
    }
  }

  /** Whatever a peer sends as a name, the cleaned name is one visible path component. */
  lemma SafeNameIsComponent(fileName: string)
    ensures Component(SafeName(fileName))
  {
    RemoveForbiddenWorks(RemoveDotDot(fileName));
    TrimDotsWorks(RemoveForbidden(RemoveDotDot(fileName)));
  }

  lemma HasDotDotFront(c: char, s: string)
    ensures HasDotDot([c] + s) <==> HasDotDot(s) || (c == '.' && s != [] && s[0] == '.')
  {
    var t := [c] + s;
    if HasDotDot(s) {
      var i :| 0 <= i < |s| - 1 && s[i] == '.' && s[i + 1] == '.';
      assert t[i + 1] == '.' && t[i + 1 + 1] == '.';
    }
    if c == '.' && s != [] && s[0] == '.' {
      assert t[0] == '.' && t[0 + 1] == '.';
    }
    if HasDotDot(t) {
      var i :| 0 <= i < |t| - 1 && t[i] == '.' && t[i + 1] == '.';
      if i > 0 {
        assert s[i - 1] == '.' && s[i - 1 + 1] == '.';
      }
    }
  }

  lemma {:induction false} NoDotDotKept(s: string)
    requires !HasDotDot(s)
    ensures RemoveDotDot(s) == s
    decreases |s|
  {
    if s != [] {
      assert [s[0]] + s[1..] == s;
      HasDotDotFront(s[0], s[1..]);
      NoDotDotKept(s[1..]);
    }
  }

  lemma {:induction false} NoForbiddenKept(s: string)
    requires NoForbidden(s)
    ensures RemoveForbidden(s) == s
    decreases |s|
  {
    if s != [] {
      assert [s[0]] + s[1..] == s;
      NoForbiddenKept(s[1..]);
    }
  }

  /** A proper name is kept as it is. */
  lemma ProperNameKept(s: string)
    requires Component(s) && !HasDotDot(s)
    ensures SafeName(s) == s
  {
    NoDotDotKept(s);
    NoForbiddenKept(s);
  }

  /** What no name may hold, and what it may: `Allowed` keeps dots, `Ordinary` drops them too. */
  predicate Special(c: char) { c in "/\\:*?\"<>|" }

  function Allowed(s: string): string
    decreases |s|
  {
    if s == [] then [] else (if Special(s[0]) then [] else [s[0]]) + Allowed(s[1..])
  }

  function Ordinary(s: string): string
    decreases |s|
  {
    if s == [] then [] else (if Special(s[0]) || s[0] == '.' then [] else [s[0]]) + Ordinary(s[1..])
  }

  lemma SpecialIff(c: char)
    ensures Special(c) <==> c in FORBIDDEN
  {
    var all := "/\\:*?\"<>|";
    assert all == ['/', '\\', ':', '*', '?', '"', '<', '>', '|'];
    if c in FORBIDDEN {
      assert c == all[0] || c == all[1] || c == all[2] || c == all[3] || c == all[4] || c == all[5] || c == all[6]
          || c == all[7] || c == all[8];
    }
  }

  lemma {:induction false} ForbiddenIsAllowed(s: string)
    ensures RemoveForbidden(s) == Allowed(s)
    decreases |s|
  {
    if s != [] {
      SpecialIff(s[0]);
      ForbiddenIsAllowed(s[1..]);
    }
  }

  lemma {:induction false} OrdinaryCons(c: char, s: string)
    ensures Ordinary([c] + s) == (if Special(c) || c == '.' then [] else [c]) + Ordinary(s)
  {
    assert ([c] + s)[1..] == s;
  }

  lemma {:induction false} DotDotKeepsOrdinary(s: string)
    ensures Ordinary(RemoveDotDot(s)) == Ordinary(s)
    decreases |s|
  {
    if |s| >= 2 {
      if s[0] == '.' && s[1] == '.' {
        DotDotKeepsOrdinary(s[2..]);
        assert s[1..][1..] == s[2..];
      } else {
        DotDotKeepsOrdinary(s[1..]);
        OrdinaryCons(s[0], RemoveDotDot(s[1..]));
      }
    }
  }

  lemma {:induction false} ForbiddenKeepsOrdinary(s: string)
    ensures Ordinary(RemoveForbidden(s)) == Ordinary(s)
    decreases |s|
  {
    if s != [] {
      SpecialIff(s[0]);
      ForbiddenKeepsOrdinary(s[1..]);
      OrdinaryCons(s[0], RemoveForbidden(s[1..]));
      assert [] + RemoveForbidden(s[1..]) == RemoveForbidden(s[1..]);
    }
  }

  lemma {:induction false} TrimKeepsOrdinary(s: string)
    ensures Ordinary(TrimDots(s)) == Ordinary(s)
    decreases |s|
  {
    if s != [] && s[0] == '.' {
      TrimKeepsOrdinary(s[1..]);
    }
  }

  /** Text without specials that does not start with a dot has an ordinary first character. */
  lemma {:induction false} FirstIsOrdinary(s: string)
    requires s != [] && s[0] != '.' && NoForbidden(s)
    ensures Ordinary(s) != []
  {
    SpecialIff(s[0]);
  }

  /** Cleaning loses nothing else: the ordinary characters of a name stay, all of them and in order, and a name that
      has none becomes "unnamed_file". */
  lemma {:induction false} SafeNameKeepsRest(fileName: string)
    ensures if Ordinary(fileName) == [] then SafeName(fileName) == "unnamed_file"
            else Ordinary(SafeName(fileName)) == Ordinary(fileName)
  {
    var a := RemoveDotDot(fileName);
    var b := RemoveForbidden(a);
    DotDotKeepsOrdinary(fileName);
    ForbiddenKeepsOrdinary(a);
    TrimKeepsOrdinary(b);
    RemoveForbiddenWorks(a);
    TrimDotsWorks(b);
    if TrimDots(b) != [] { FirstIsOrdinary(TrimDots(b)); }
  }

  /** Single dots after an ordinary first character stay as well. */
  lemma {:induction false} SafeNameKeepsDots(fileName: string)
    requires fileName != [] && !HasDotDot(fileName) && fileName[0] != '.' && !Special(fileName[0])
    ensures SafeName(fileName) == Allowed(fileName)
  {
    NoDotDotKept(fileName);
    ForbiddenIsAllowed(fileName);
  }

  // ---- Two dots can meet again

  /** The first pass leaves no two dots together. */
  lemma {:induction false} RemoveDotDotWorks(s: string)
    ensures !HasDotDot(RemoveDotDot(s))
    ensures RemoveDotDot(s) != [] && s[0] != '.' ==> RemoveDotDot(s)[0] == s[0]
    decreases |s|
  {
    if |s| >= 2 {
      if s[0] == '.' && s[1] == '.' {
        RemoveDotDotWorks(s[2..]);
      } else {
        RemoveDotDotWorks(s[1..]);
        HasDotDotFront(s[0], RemoveDotDot(s[1..]));
      }
    }
  }

  /** The dots at i and j have only forbidden characters between them. */
  predicate Meet(s: string, i: nat, j: nat) {
    i < j < |s| && s[i] == '.' && s[j] == '.' && forall k | i < k < j :: s[k] in FORBIDDEN
  }

  /** An ordinary character, which trimming stops at, stands before i. */
  predicate Anchored(s: string, i: nat) { exists h | 0 <= h < i && h < |s| :: s[h] != '.' && s[h] !in FORBIDDEN }

  /** After a character that is kept, two dots have only forbidden characters between them. */
  ghost predicate Rejoins(s: string) { exists i: nat, j: nat :: Meet(s, i, j) && Anchored(s, i) }

  lemma {:induction false} HeadOf(s: string)
    requires s != []
    ensures RemoveForbidden(s) ==
              if s[0] in FORBIDDEN then RemoveForbidden(s[1..]) else [s[0]] + RemoveForbidden(s[1..])
  {
  }

  lemma {:induction false} FirstKept(s: string) returns (j: nat)
    requires RemoveForbidden(s) != []
    ensures j < |s| && s[j] == RemoveForbidden(s)[0] && s[j] !in FORBIDDEN
    ensures forall k | 0 <= k < j :: s[k] in FORBIDDEN
    decreases |s|
  {
    if s[0] in FORBIDDEN {
      var m := FirstKept(s[1..]);
      j := m + 1;
      assert forall k | 0 < k < j :: s[k] == s[1..][k - 1];
    } else {
      j := 0;
    }
  }

  lemma {:induction false} FirstKeptIs(s: string, j: nat)
    requires j < |s| && s[j] !in FORBIDDEN && forall k | 0 <= k < j :: s[k] in FORBIDDEN
    ensures RemoveForbidden(s) != [] && RemoveForbidden(s)[0] == s[j]
    decreases |s|
  {
    if j > 0 {
      assert s[1..][j - 1] == s[j] && forall k | 0 <= k < j - 1 :: s[1..][k] == s[k + 1];
      FirstKeptIs(s[1..], j - 1);
    }
  }

  lemma MeetTail(s: string, i: nat, j: nat)
    requires Meet(s, i, j)
    ensures i > 0 ==> Meet(s[1..], i - 1, j - 1)
    ensures j - 1 < |s[1..]| && s[1..][j - 1] == '.'
    ensures i == 0 ==> forall k | 0 <= k < j - 1 :: s[1..][k] in FORBIDDEN
  {
    assert forall k | 0 <= k < |s| - 1 :: s[1..][k] == s[k + 1];
  }

  lemma {:induction false} MeetsAgain(s: string, i: nat, j: nat)
    requires Meet(s, i, j)
    ensures HasDotDot(RemoveForbidden(s))
    decreases |s|
  {
    MeetTail(s, i, j);
    HeadOf(s);
    HasDotDotFront(s[0], RemoveForbidden(s[1..]));
    if i > 0 {
      MeetsAgain(s[1..], i - 1, j - 1);
    } else {
      FirstKeptIs(s[1..], j - 1);
    }
  }

  lemma {:induction false} MeetingDots(s: string) returns (i: nat, j: nat)
    requires HasDotDot(RemoveForbidden(s))
    ensures Meet(s, i, j)
    decreases |s|
  {
    var t := s[1..];
    HeadOf(s);
    HasDotDotFront(s[0], RemoveForbidden(t));
    if HasDotDot(RemoveForbidden(t)) {
      var a, b := MeetingDots(t);
      i, j := a + 1, b + 1;
      assert forall k | i < k < j :: s[k] == t[k - 1];
    } else {
      var m := FirstKept(t);
      i, j := 0, m + 1;
      assert forall k | 0 < k < j :: s[k] == t[k - 1];
    }
  }

  /** Two dots survive in the cleaned name exactly if, after a character that is kept, the name with its
      ".." removed has two dots with only forbidden characters between them. */
  lemma {:induction false} DotDotReturnsIff(t: string)
    ensures HasDotDot(TrimDots(RemoveForbidden(t))) <==> Rejoins(t)
    decreases |t|
  {
    if t == [] {
    } else if t[0] == '.' || t[0] in FORBIDDEN {
      var u := t[1..];
      HeadOf(t);
      assert t[0] == '.' ==> ([t[0]] + RemoveForbidden(u))[1..] == RemoveForbidden(u);
      assert TrimDots(RemoveForbidden(t)) == TrimDots(RemoveForbidden(u));
      DotDotReturnsIff(u);
      Shift(t);
    } else {
      if HasDotDot(RemoveForbidden(t)) {
        var i, j := MeetingDots(t);
        assert Anchored(t, i);
      }
      if i: nat, j: nat :| Meet(t, i, j) && Anchored(t, i) {
        MeetsAgain(t, i, j);
      }
    }
  }

  lemma Shift(t: string)
    requires t != [] && (t[0] == '.' || t[0] in FORBIDDEN)
    ensures Rejoins(t) <==> Rejoins(t[1..])
  {
    var u := t[1..];
    if i: nat, j: nat :| Meet(t, i, j) && Anchored(t, i) {
      var h :| 0 <= h < i && h < |t| && t[h] != '.' && t[h] !in FORBIDDEN;
      assert u[h - 1] == t[h] && u[i - 1] == t[i] && u[j - 1] == t[j];
      assert forall k | i - 1 < k < j - 1 :: u[k] == t[k + 1];
      assert Meet(u, i - 1, j - 1) && Anchored(u, i - 1);
    }
    if i: nat, j: nat :| Meet(u, i, j) && Anchored(u, i) {
      var h :| 0 <= h < i && h < |u| && u[h] != '.' && u[h] !in FORBIDDEN;
      assert t[h + 1] == u[h];
      assert forall k | i + 1 < k < j + 1 :: t[k] == u[k - 1];
      assert Meet(t, i + 1, j + 1) && Anchored(t, i + 1);
    }
  }

  /** The same, of the cleaned name itself. */
  lemma {:induction false} SafeNameDotDotIff(fileName: string)
    ensures HasDotDot(SafeName(fileName)) <==> Rejoins(RemoveDotDot(fileName))
  {
    DotDotReturnsIff(RemoveDotDot(fileName));
    var name := TrimDots(RemoveForbidden(RemoveDotDot(fileName)));
    if name == [] {
      assert !HasDotDot(name);
      assert forall i | 0 <= i < |SafeName(fileName)| :: SafeName(fileName)[i] != '.';
    } else {
      assert SafeName(fileName) == name;
      assert HasDotDot(SafeName(fileName)) <==> HasDotDot(name);
    }
  }

  /** The cleaned name of a name without "..": it can still hold one. */
  lemma DotDotCanReturn()
    ensures !HasDotDot("a.:.b") && SafeName("a.:.b") == "a..b"
  {
    DotsApart();
    NoDotDotKept("a.:.b");
    RemovedBetween("a.", ':', ".b");
    assert "a.:.b" == "a." + [':'] + ".b" && "a." + ".b" == "a..b";
  }

  lemma DotsApart()
    ensures !HasDotDot("a.:.b")
  {
    var s := "a.:.b";
    assert s[0] == 'a' && s[1] == '.' && s[2] == ':' && s[3] == '.' && s[4] == 'b';
  }

  lemma FrontOf(front: string, c: char, back: string)
    requires front != []
    ensures (front + [c] + back)[0] == front[0] && (front + [c] + back)[1..] == front[1..] + [c] + back
    ensures front + back == [front[0]] + (front[1..] + back)
  {
  }

  /** A forbidden character between proper texts is dropped. */
  lemma {:induction false} RemovedBetween(front: string, c: char, back: string)
    requires NoForbidden(front) && NoForbidden(back) && c in FORBIDDEN
    ensures RemoveForbidden(front + [c] + back) == front + back
    decreases |front|
  {
    if front == [] {
      assert ([] + [c] + back)[1..] == back && [] + back == back;
      HeadOf([] + [c] + back);
      NoForbiddenKept(back);
    } else {
      FrontOf(front, c, back);
      HeadOf(front + [c] + back);
      RemovedBetween(front[1..], c, back);
    }
  }

  // ---- Numbering

  /** Where `file_stem` and `extension` split a name: at its last dot, unless that is its first character. */
  function LastDot(s: string): (i: nat)
    ensures i <= |s|
  {
    if s == [] then 0 else if s[|s| - 1] == '.' then |s| - 1 else
    var i := LastDot(s[..|s| - 1]);
    if i == |s| - 1 then |s| else i
  }

  lemma {:induction false} LastDotIsLast(s: string)
    ensures LastDot(s) < |s| ==> s[LastDot(s)] == '.'
    ensures forall k | LastDot(s) < k < |s| :: s[k] != '.'
    ensures LastDot(s) == |s| ==> '.' !in s
  {
    if s != [] {
      LastDotIsLast(s[..|s| - 1]);
    }
  }

  function Split(s: string): nat { if LastDot(s) == 0 then |s| else LastDot(s) }

  function Candidate(name: string, k: nat): string {
    if k == 0 then name else name[..Split(name)] + " (" + Decimal.Print(k) + ")" + name[Split(name)..]
  }

  /** The numbered names are pairwise distinct. */
  lemma CandidatesDistinct(name: string, j: nat, k: nat)
    requires Candidate(name, j) == Candidate(name, k)
    ensures j == k
  {
    var stem, ext := name[..Split(name)], name[Split(name)..];
    if j > 0 && k > 0 {
      var a, b := Candidate(name, j), Candidate(name, k);
      var p, q := Decimal.Print(j), Decimal.Print(k);
      assert |p| == |q|;
      assert a[|stem| + 2..|stem| + 2 + |p|] == p;
      assert b[|stem| + 2..|stem| + 2 + |q|] == q;
      Decimal.PrintInjective(j, k);
    }
  }

  lemma {:induction false} SplitAt(stem: string, ext: string)
    requires stem != "" && '.' !in ext
    ensures Split(stem + "." + ext) == |stem|
  {
    var s := stem + "." + ext;
    LastDotIsLast(s);
    assert s[|stem|] == '.';
    assert forall k | |stem| < k < |s| :: s[k] == ext[k - |stem| - 1];
  }

  /** The number stands before the last extension. */
  lemma {:induction false} NumberBeforeExtension(stem: string, ext: string, k: nat)
    requires stem != "" && '.' !in ext && k > 0
    ensures Candidate(stem + "." + ext, k) == stem + " (" + Decimal.Print(k) + ")." + ext
  {
    SplitAt(stem, ext);
    var s := stem + "." + ext;
    assert s[..|stem|] == stem && s[|stem|..] == "." + ext;
    assert ")" + ("." + ext) == ")." + ext;
  }

  /** A name without an extension, or with nothing before its only dot, gets the number at its end. */
  lemma {:induction false} NumberAtEnd(name: string, k: nat)
    requires k > 0 && forall i | 0 < i < |name| :: name[i] != '.'
    ensures Candidate(name, k) == name + " (" + Decimal.Print(k) + ")"
  {
    LastDotIsLast(name);
    assert Split(name) == |name|;
    assert name[..|name|] == name && name[|name|..] == "";
  }

  /** A second file called "a.txt". */
  lemma {:induction false} NumberingExample()
    ensures Candidate("a.txt", 1) == "a (1).txt"
  {
    var stem, ext := "a", "txt";
    assert stem + "." + ext == "a.txt";
    NumberBeforeExtension(stem, ext, 1);
    var one := Decimal.Print(1);
    assert one == ['1'];
    assert stem + " (" + one + ")." + ext == "a (1).txt";
  }

  lemma CandidateIsComponent(name: string, k: nat)
    requires Component(name)
    ensures Component(Candidate(name, k))
  {
    Decimal.PrintThenValue(k);
    var p := Decimal.Print(k);
    assert forall i | 0 <= i < |p| :: Decimal.IsDigit(p[i]) && p[i] !in FORBIDDEN;
    if k > 0 {
      assert Split(name) > 0;
      assert Candidate(name, k)[0] == name[0];
    }
  }

  /** The first numbered name that no existing file has, after at most one probe more than there are files. */
  method SafeDestination(existing: set<string>, fileName: string) returns (dest: string, probes: nat)
    ensures dest !in existing && Component(dest)
    ensures 1 <= probes <= |existing| + 1
    ensures dest == Candidate(SafeName(fileName), probes - 1)
    ensures forall k | 0 <= k < probes - 1 :: Candidate(SafeName(fileName), k) in existing
  {
    var name := SafeName(fileName);
    dest := name;
    var counter := 1;
    ghost var tried := {};
    while dest in existing
      invariant counter >= 1 && dest == Candidate(name, counter - 1)
      invariant tried == Candidates(name, counter - 1) && |tried| == counter - 1
      invariant tried <= existing
      decreases |existing - tried|
    {
      NextCandidate(name, counter - 1);
      tried := tried + {dest};
      dest := name[..Split(name)] + " (" + Decimal.Print(counter) + ")" + name[Split(name)..];
      counter := counter + 1;
    }
    SubsetSize(tried, existing);
    SafeNameIsComponent(fileName);
    CandidateIsComponent(name, counter - 1);
    probes := counter;
  }

  /** The first n candidates. */
  ghost function Candidates(name: string, n: nat): set<string> {
    set k | 0 <= k < n :: Candidate(name, k)
  }

  /** The next candidate is a new one. */
  lemma NextCandidate(name: string, n: nat)
    ensures Candidate(name, n) !in Candidates(name, n)
    ensures Candidates(name, n + 1) == Candidates(name, n) + {Candidate(name, n)}
  {
    if Candidate(name, n) in Candidates(name, n) {
      var j :| 0 <= j < n && Candidate(name, n) == Candidate(name, j);
      CandidatesDistinct(name, n, j);
    }
  }

  lemma SubsetSize<T>(a: set<T>, b: set<T>)
    requires a <= b
    ensures |a| <= |b|
  {
    assert b == a + (b - a);
  }
}
