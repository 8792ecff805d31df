/** Reading a list of file names, one per line.

    The file itself is not modelled: the reading loop sees the stream only
    through `feof`, `ferror` and `fgets`, so its input is the sequence of
    what each pass of the loop observes (a step). The loop makes one pass per
    step and stops when the steps run out, which is the end-of-file test.
 */
module ReadNames {
  import opened Errors

  /** What one pass of the reading loop observes:
      - Read(chars): fgets stored `chars` (the bytes before the terminator
        fgets appends, which may themselves contain NULs); the buffer holds
        250 characters, so a read stores at most 249 of them and a longer
        line arrives as several reads, each giving its own entry;
      - NoLine: fgets read nothing and returned NULL;
      - StreamError: the stream's error indicator is set at the top of the pass. */
  datatype Step = Read(chars: seq<char>) | NoLine | StreamError

  /** isNewLine(): a carriage return or a line feed, the line terminators of
      Windows, Unix and classic MacOS. */
  function IsNewLine(x: char): (b: bool)
    ensures b <==> x == '\r' || x == '\n'
  {
    match x
    case '\r' => true
    case '\n' => true
    case _ => false
  }

  /** What `std::string(buffer)` sees of a C buffer: the characters before the
      first NUL. */
  function CString(s: seq<char>): seq<char> {
    if s == [] || s[0] == '\0' then []
    else [s[0]] + CString(s[1..])
  }

  /** CString(s) is the longest NUL-free prefix of `s`. */
  lemma {:induction false} CStringSpec(s: seq<char>)
    ensures CString(s) <= s
    ensures '\0' !in CString(s)
    ensures |CString(s)| < |s| ==> s[|CString(s)|] == '\0'
  {
    if s != [] && s[0] != '\0' {
      CStringSpec(s[1..]);
    }
  }

  /** trim_right_copy_if(s, isNewLine): `s` without its trailing run of line
      terminators; every other character, spaces included, stays. */
  function TrimNewlines(s: seq<char>): seq<char> {
    if s == [] || !IsNewLine(s[|s| - 1]) then s
    else TrimNewlines(s[..|s| - 1])
  }

  /** TrimNewlines(s) is the prefix of `s` that ends in something other than
      a line terminator (or is empty) and leaves only line terminators after
      it: `s` less its trailing run of terminators. */
  lemma {:induction false} TrimNewlinesSpec(s: seq<char>)
    ensures TrimNewlines(s) <= s
    ensures TrimNewlines(s) == [] || !IsNewLine(TrimNewlines(s)[|TrimNewlines(s)| - 1])
    ensures forall k :: |TrimNewlines(s)| <= k < |s| ==> IsNewLine(s[k])
  {
    if s != [] && IsNewLine(s[|s| - 1]) {
      TrimNewlinesSpec(s[..|s| - 1]);
    }
  }

  /** The first character of the buffer after a read: a read of nothing
      leaves only fgets' terminating NUL there. */
  function FirstInBuffer(chars: seq<char>): char {
    if chars == [] then '\0' else chars[0]
  }

  /** A read that is a comment line, ignored by the loop. */
  predicate IsComment(chars: seq<char>) {
    FirstInBuffer(chars) == '#'
  }

  /** The name one read of a non-comment line contributes. */
  function Clean(chars: seq<char>): seq<char> {
    TrimNewlines(CString(chars))
  }

  /** The list entries a step contributes. */
  function Entry(step: Step): seq<seq<char>> {
    if step.Read? && !IsComment(step.chars) then [Clean(step.chars)] else []
  }

  /** The entries of the first `k` steps, in the order they were read. */
  function NamesUpTo(steps: seq<Step>, k: nat): seq<seq<char>>
    requires k <= |steps|
  {
    if k == 0 then [] else NamesUpTo(steps, k - 1) + Entry(steps[k - 1])
  }

  /** The entries of a run of steps. */
  function Names(steps: seq<Step>): seq<seq<char>> {
    NamesUpTo(steps, |steps|)
  }

  lemma EntryCases(step: Step)
    ensures step.Read? && FirstInBuffer(step.chars) != '#' ==>
      Entry(step) == [TrimNewlines(CString(step.chars))]
    ensures step.NoLine? || (step.Read? && FirstInBuffer(step.chars) == '#') ==> Entry(step) == []
  {
  }

  /** readFileNames(): on a stream error, fails with FileIo and leaves the
      caller's list as it was; otherwise replaces the list by the names read,
      skipping empty reads and comment lines and trimming trailing line
      terminators. */
  method ReadFileNames(steps: seq<Step>, fileList: seq<seq<char>>)
    returns (status: Outcome, newList: seq<seq<char>>)
    ensures status.Fail? <==> StreamError in steps
    ensures status.Fail? ==> status.error == FileIo && newList == fileList
    ensures status.Pass? ==> newList == Names(steps)
  {
    var temp: seq<seq<char>> := [];
    var i := 0;
    while i < |steps|
      invariant 0 <= i <= |steps|
      invariant forall m :: 0 <= m < i ==> steps[m] != StreamError
      invariant temp == NamesUpTo(steps, i)
    {
      if steps[i].StreamError? {
        assert steps[i] in steps;
        return Fail(FileIo), fileList;
      }
      EntryCases(steps[i]);
      // a read that returned nothing, or a comment line, adds no entry
      if steps[i].Read? {
        var buffer := steps[i].chars;
        if FirstInBuffer(buffer) != '#' {
          temp := temp + [TrimNewlines(CString(buffer))];
        }
      }
      i := i + 1;
    }
    status, newList := Pass, temp;
  }

  // ---------------------------------------------------------------------
  // Properties

  /** The entries of a prefix depend only on that prefix. */
  lemma {:induction false} NamesUpToPrefix(s: seq<Step>, t: seq<Step>, k: nat)
    requires k <= |s| && k <= |t| && s[..k] == t[..k]
    ensures NamesUpTo(s, k) == NamesUpTo(t, k)
  {
    if k > 0 {
      assert s[k - 1] == s[..k][k - 1] == t[k - 1];
      assert s[..k - 1] == s[..k][..k - 1];
      assert t[..k - 1] == t[..k][..k - 1];
      NamesUpToPrefix(s, t, k - 1);
    }
  }

  lemma {:induction false} NamesUpToAppend(a: seq<Step>, b: seq<Step>, k: nat)
    requires k <= |b|
    ensures NamesUpTo(a + b, |a| + k) == Names(a) + NamesUpTo(b, k)
  {
    if k == 0 {
      assert (a + b)[..|a|] == a[..|a|];
      NamesUpToPrefix(a + b, a, |a|);
    } else {
      NamesUpToAppend(a, b, k - 1);
      assert (a + b)[|a| + k - 1] == b[k - 1];
      var e := Entry(b[k - 1]);
      var front, back := Names(a), NamesUpTo(b, k - 1);
      assert NamesUpTo(a + b, |a| + k) == (front + back) + e;
      assert (front + back) + e == front + (back + e);
    }
  }

  /** Reading two runs of steps one after the other gives the names of the
      first followed by those of the second: the list keeps the file's order. */
  lemma NamesAppend(a: seq<Step>, b: seq<Step>)
    ensures Names(a + b) == Names(a) + Names(b)
  {
    NamesUpToAppend(a, b, |b|);
  }

  /** `step` is a read of a non-comment line whose cleaned text is `n`. */
  predicate Produces(step: Step, n: seq<char>) {
    step.Read? && !IsComment(step.chars) && n == Clean(step.chars)
  }

  /** Every entry among the first `k` comes from some non-comment read. */
  lemma {:induction false} NameSource(steps: seq<Step>, k: nat, n: seq<char>) returns (i: nat)
    requires k <= |steps| && n in NamesUpTo(steps, k)
    ensures i < k && Produces(steps[i], n)
  {
    if n in NamesUpTo(steps, k - 1) {
      i := NameSource(steps, k - 1, n);
    } else {
      i := k - 1;
    }
  }

  /** Every non-comment read among the first `k` steps contributes its entry. */
  lemma {:induction false} ReadGivesName(steps: seq<Step>, k: nat, n: seq<char>, i: nat)
    requires k <= |steps| && i < k && Produces(steps[i], n)
    ensures n in NamesUpTo(steps, k)
  {
    assert NamesUpTo(steps, k) == NamesUpTo(steps, k - 1) + Entry(steps[k - 1]);
    if i < k - 1 {
      ReadGivesName(steps, k - 1, n, i);
    } else {
      assert Entry(steps[i]) == [n];
    }
  }

  /** A name is in the list exactly when some non-comment read produced it. */
  lemma NamesFromReads(steps: seq<Step>, n: seq<char>)
    ensures n in Names(steps) <==> exists i :: 0 <= i < |steps| && Produces(steps[i], n)
  {
    if n in Names(steps) {
      var i := NameSource(steps, |steps|, n);
    }
    forall i | 0 <= i < |steps| && Produces(steps[i], n) ensures n in Names(steps) {
      ReadGivesName(steps, |steps|, n, i);
    }
  }

  /** No entry holds a NUL or ends in a line terminator. */
  lemma NamesAreClean(steps: seq<Step>)
    ensures forall n :: n in Names(steps) ==> '\0' !in n && (n == [] || !IsNewLine(n[|n| - 1]))
  {
    forall n | n in Names(steps) ensures '\0' !in n && (n == [] || !IsNewLine(n[|n| - 1])) {
      var i := NameSource(steps, |steps|, n);
      var c := CString(steps[i].chars);
      CStringSpec(steps[i].chars);
      TrimNewlinesSpec(c);
      assert forall ch :: ch in n ==> ch in c;
    }
  }

  /** Trimming twice is trimming once. */
  lemma {:induction false} TrimIdempotent(s: seq<char>)
    ensures TrimNewlines(TrimNewlines(s)) == TrimNewlines(s)
  {
    TrimNewlinesSpec(s);
  }

  /** Only line terminators are trimmed: trailing spaces of a name stay. */
  lemma {:induction false} TrimKeepsSpaces(s: seq<char>)
    ensures TrimNewlines(s + [' ']) == s + [' ']
  {
  }

  /** A Windows line ending loses both of its characters. */
  lemma {:induction false} CrLfTrimmed(s: seq<char>)
    requires s == [] || !IsNewLine(s[|s| - 1])
    ensures TrimNewlines(s + ['\r', '\n']) == s
  {
    var t := s + ['\r', '\n'];
    assert t[..|t| - 1] == s + ['\r'];
    assert (s + ['\r'])[..|s|] == s;
    assert TrimNewlines(t) == TrimNewlines(s + ['\r']) == TrimNewlines(s) == s;
  }

  /** A blank line is not skipped: fgets stores its line feed, so the read
      is not a comment and contributes the empty name. Only a read that
      returns NULL (NoLine) contributes nothing. */
  lemma BlankLineGivesEmptyName()
    ensures Entry(Read(['\n'])) == [[]]
    ensures Entry(NoLine) == []
  {
    assert CString(['\n']) == ['\n'] by {
      assert ['\n'][1..] == [];
    }
    assert ['\n'][..0] == [];
  }

  /** A run with no stream error and no non-comment read gives the empty
      list, which readFileNames accepts. */
  lemma CommentsOnlyGiveNoNames(steps: seq<Step>)
    requires forall i :: 0 <= i < |steps| ==> steps[i] == NoLine || (steps[i].Read? && IsComment(steps[i].chars))
    ensures Names(steps) == []
  {
    if Names(steps) != [] {
      var i := NameSource(steps, |steps|, Names(steps)[0]);
    }
  }
}
