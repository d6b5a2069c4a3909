// The activity log: a current file and one rotated file, bounded, across any number of
// sessions, failed calls and crashes.
module LogFiles {
  import opened Wrappers

  // Everything written, end to end.
  function Joined(lines: seq<string>): string {
    if lines == [] then "" else lines[0] + Joined(lines[1..])
  }

  lemma {:induction false} JoinedAppended(a: seq<string>, b: seq<string>)
    ensures Joined(a + b) == Joined(a) + Joined(b)
  {
    if a == [] {
      assert a + b == b;
    } else {
      RestOfBoth(a, b);
      JoinedAppended(a[1..], b);
    }
  }

  lemma RestOfBoth<T>(a: seq<T>, b: seq<T>)
    requires a != []
    ensures (a + b)[1..] == a[1..] + b && (a + b)[0] == a[0]
  {
  }

  // A list grown by one, without the one.
  lemma GrownByOne<S, T>(s: seq<S>, i: nat, more: seq<T>, x: T)
    requires i < |s| && |more| == i
    ensures s[..i + 1][..i] == s[..i] && |s[..i + 1]| == i + 1 && s[..i + 1][i] == s[i]
    ensures (more + [x])[..i] == more && |more + [x]| == i + 1 && (more + [x])[i] == x
  {
  }

  lemma JoinedOne(line: string)
    ensures Joined([line]) == line && Joined([]) == ""
  {
  }

  lemma TwoParts(history: seq<string>, k: nat)
    requires k <= |history|
    ensures Joined(history) == Joined(history[..k]) + Joined(history[k..])
  {
    hide Joined;
    JoinedAppended(history[..k], history[k..]);
    assert history[..k] + history[k..] == history;
  }

  lemma Slices<T>(s: seq<T>, i: nat, j: nat)
    requires i <= j <= |s|
    ensures s[i..][..j - i] == s[i..j] && s[i..][j - i..] == s[j..]
  {
  }

  lemma ThreeParts(history: seq<string>, kept: nat, cut: nat)
    requires kept <= cut <= |history|
    ensures Joined(history) == Joined(history[..kept]) + (Joined(history[kept..cut]) + Joined(history[cut..]))
  {
    hide Joined;
    var tail := history[kept..];
    TwoParts(history, kept);
    TwoParts(tail, cut - kept);
    Slices(history, kept, cut);
  }

  lemma OneMore(history: seq<string>, kept: nat, cut: nat, text: string)
    requires kept <= cut <= |history|
    ensures Joined((history + [text])[cut..]) == Joined(history[cut..]) + text
    ensures (history + [text])[kept..cut] == history[kept..cut]
  {
    JoinedAppended(history[cut..], [text]);
    JoinedOne(text);
    assert (history + [text])[cut..] == history[cut..] + [text];
  }

  function Smaller(a: nat, b: nat): nat { if a < b then a else b }

  function Content(file: Option<string>): string {
    if file.Some? then file.value else ""
  }

  // The log directory, changed one call at a time. `history` is every piece of text that
  // reached it, whatever became of it since; the pieces from `kept` to `cut` are in the
  // rotated file and the later ones in the current file.
  class LogDir {
    var current: Option<string>
    var rotated: Option<string>
    ghost const limit: nat
    ghost var history: seq<string>
    ghost var kept: nat
    ghost var cut: nat
    // No size was misread and no write was torn; and the longest line so far.
    ghost var exact: bool
    ghost var longest: nat
    // How many calls have failed.
    ghost var failures: nat

    // Text is lost only from the front, at line ends, and only once the limit is reached.
    ghost predicate Valid() reads this {
      && kept <= cut <= |history|
      && Content(rotated) == Joined(history[kept..cut])
      && Content(current) == Joined(history[cut..])
      && (kept == 0 || |Content(rotated)| >= limit || |Content(current)| >= limit)
    }

    ghost predicate Bounded() reads this {
      |Content(rotated)| < limit + longest && |Content(current)| < limit + longest
    }

    constructor (current: Option<string>, rotated: Option<string>, ghost limit: nat)
      ensures Valid() && this.current == current && this.rotated == rotated && this.limit == limit
      ensures history == [Content(rotated), Content(current)] && exact && longest == 0 && kept == 0 && failures == 0
    {
      this.current, this.rotated, this.limit := current, rotated, limit;
      history, kept, cut := [Content(rotated), Content(current)], 0, 1;
      exact, longest, failures := true, 0, 0;
      JoinedOne(Content(rotated));
      JoinedOne(Content(current));
      assert [Content(rotated), Content(current)][0..1] == [Content(rotated)];
      assert [Content(rotated), Content(current)][1..] == [Content(current)];
    }

    // What the two files hold is the end of the history, and no less than the limit of it.
    lemma KeepsTheEnd()
      requires Valid()
      ensures Joined(history) == Joined(history[..kept]) + (Content(rotated) + Content(current))
      ensures |Content(rotated)| + |Content(current)| >= Smaller(|Joined(history)|, limit)
    {
      hide Joined;
      ThreeParts(history, kept, cut);
      JoinedOne("");
      assert kept == 0 ==> history[..kept] == [];
    }

    method Fails() returns (fault: bool)
      modifies this`failures
      ensures failures == old(failures) + if fault then 1 else 0
    {
      fault := *;
      failures := failures + if fault then 1 else 0;
    }

    // `metadata(..).len()`, or nothing when it cannot be had.
    method Size() returns (size: nat)
      requires Valid()
      modifies this`exact, this`failures
      ensures if failures == old(failures) then size == |Content(current)| && exact == old(exact)
              else failures > old(failures) && size == 0 && !exact
    {
      var fault := Fails();
      if fault {
        exact := false;
        return 0;
      }
      return |Content(current)|;
    }

    method RemoveRotated() returns (ok: bool)
      requires Valid() && |Content(current)| >= limit
      modifies this`rotated, this`kept, this`failures
      ensures Valid()
      ensures if ok then rotated == None && failures == old(failures)
              else rotated == old(rotated) && kept == old(kept) && failures > old(failures)
    {
      var fault := Fails();
      if fault {
        return false;
      }
      rotated, kept := None, cut;
      assert history[cut..cut] == [];
      return true;
    }

    method RenameCurrent() returns (ok: bool)
      requires Valid() && |Content(current)| >= limit && rotated.None?
      modifies this`rotated, this`current, this`kept, this`cut, this`failures
      ensures Valid()
      ensures ok ==> rotated == old(current) && current == None && rotated.Some? && failures == old(failures)
      ensures !ok ==> rotated == None && current == old(current) && cut == old(cut)
      ensures !ok ==> failures > old(failures) || (old(current).None? && failures == old(failures))
    {
      var fault := Fails();
      if fault || current.None? {
        return false;
      }
      assert history[cut..|history|] == history[cut..] && history[|history|..] == [];
      rotated, current, kept, cut := current, None, cut, |history|;
      return true;
    }

    // `OpenOptions::create(true).append(true)`
    method OpenCurrent() returns (ok: bool)
      requires Valid()
      modifies this`current, this`failures
      ensures Valid() && Content(current) == Content(old(current))
      ensures if ok then current.Some? && failures == old(failures)
                else current == old(current) && failures > old(failures)
    {
      var fault := Fails();
      if fault {
        return false;
      }
      current := Some(Content(current));
      return true;
    }

    // `write_all`: all of the text, or an error with some of it written.
    method Write(text: string) returns (ok: bool)
      requires Valid() && current.Some?
      modifies this`current, this`history, this`exact, this`longest, this`failures
      ensures Valid() && current.Some?
      ensures ok ==> failures == old(failures) && exact == old(exact)
      ensures ok ==> history == old(history) + [text] && current.value == old(current).value + text
      ensures !ok ==> failures > old(failures) && !exact
      ensures !ok ==> exists n: nat :: n <= |text| && history == old(history) + [text[..n]]
                                       && current.value == old(current).value + text[..n]
      ensures longest == if |text| > old(longest) then |text| else old(longest)
    {
      var fault := Fails();
      var n: nat := |text|;
      if fault {
        n :| n <= |text|;
        exact := false;
      } else {
        assert text[..n] == text;
      }
      hide Joined;
      OneMore(history, kept, cut, text[..n]);
      current, history := Some(current.value + text[..n]), history + [text[..n]];
      longest := if |text| > longest then |text| else longest;
      return !fault;
    }
  }

  // `rotate`
  method Rotate(dir: LogDir) returns (ok: bool)
    requires dir.Valid() && |Content(dir.current)| >= dir.limit
    modifies dir`rotated, dir`current, dir`kept, dir`cut, dir`failures
    ensures dir.Valid() && old(dir.failures) <= dir.failures
    ensures ok ==> dir.rotated == old(dir.current) && dir.current == None
    ensures !ok ==>
              dir.current == old(dir.current) && dir.cut == old(dir.cut) && dir.rotated in {old(dir.rotated), None}
    ensures !ok ==> dir.failures > old(dir.failures) || old(dir.current).None?
  {
    if dir.rotated.Some? {
      ok := dir.RemoveRotated();
      if !ok {
        return;
      }
    }
    ok := dir.RenameCurrent();
  }

  class LogFile {
    const dir: LogDir
    const limit: nat
    // Whether the handle is held.
    var file: bool
    var written: nat

    ghost predicate Valid() reads this, dir {
      && dir.Valid() && dir.limit == limit
      && written <= |Content(dir.current)|
      && (dir.exact ==> written == |Content(dir.current)|)
      && (file ==> dir.current.Some?)
    }

    constructor (dir: LogDir, limit: nat, written: nat)
      requires dir.Valid() && dir.limit == limit && dir.current.Some?
      requires written <= |Content(dir.current)| && (dir.exact ==> written == |Content(dir.current)|)
      ensures Valid() && this.dir == dir && this.limit == limit && file && this.written == written
    {
      this.dir, this.limit, this.file, this.written := dir, limit, true, written;
    }

    // `append`, its first half: a full file is rotated away, and the handle let go before.
    method MakeRoom() returns (ok: bool)
      requires Valid()
      modifies this, dir`rotated, dir`current, dir`kept, dir`cut, dir`failures
      ensures Valid() && old(dir.failures) <= dir.failures
      ensures ok ==> Content(dir.current) == if old(written) >= limit then "" else Content(old(dir.current))
      ensures ok ==> dir.rotated == if old(written) >= limit then old(dir.current) else old(dir.rotated)
      ensures ok && limit > 0 ==> written < limit
      ensures !ok ==> dir.current == old(dir.current) && dir.rotated in {old(dir.rotated), None}
      ensures !ok && limit > 0 ==> dir.failures > old(dir.failures)
    {
      hide Joined;
      if written >= limit {
        file := false;
        ok := Rotate(dir);
        if !ok {
          return;
        }
        written := 0;
      }
      return true;
    }

    method Handle() returns (ok: bool)
      requires Valid()
      modifies this`file, dir`current, dir`failures
      ensures Valid() && Content(dir.current) == Content(old(dir.current))
      ensures if ok then file && dir.failures == old(dir.failures) else dir.failures > old(dir.failures)
    {
      hide Joined;
      if file {
        return true;
      }
      ok := dir.OpenCurrent();
      if ok {
        file := true;
      }
    }

    method Append(line: string) returns (ok: bool)
      requires Valid()
      modifies this, dir
      ensures Valid() && old(dir.failures) <= dir.failures
      ensures ok ==> dir.history == old(dir.history) + [line] && dir.exact == old(dir.exact)
      ensures ok ==> dir.current == Some(if old(written) >= limit then line else Content(old(dir.current)) + line)
      ensures ok ==> dir.rotated == if old(written) >= limit then old(dir.current) else old(dir.rotated)
      ensures !ok ==> dir.history == old(dir.history)
                      || exists n: nat :: n <= |line| && dir.history == old(dir.history) + [line[..n]]
      ensures !ok && limit > 0 ==> dir.failures > old(dir.failures)
      ensures (dir.exact ==> old(dir.exact)) && (dir.failures == old(dir.failures) ==> dir.exact == old(dir.exact))
      ensures dir.longest == old(dir.longest) || old(dir.longest) < dir.longest == |line|
      ensures limit > 0 && dir.exact && old(dir.exact ==> dir.Bounded()) ==> dir.Bounded()
    {
      hide Joined;
      ok := MakeRoom();
      if !ok {
        return;
      }
      ok := Handle();
      if !ok {
        return;
      }
      assert "" + line == line;
      ok := dir.Write(line);
      if ok {
        written := written + |line|;
      }
    }
  }

  // `open_with_limit`; on an error there is no log file.
  method Open(dir: LogDir, limit: nat) returns (log: Option<LogFile>)
    requires dir.Valid() && dir.limit == limit
    modifies dir
    ensures dir.Valid() && dir.history == old(dir.history) && dir.longest == old(dir.longest)
    ensures old(dir.failures) <= dir.failures && (log.None? && limit > 0 ==> dir.failures > old(dir.failures))
    ensures (dir.exact ==> old(dir.exact)) && (dir.failures == old(dir.failures) ==> dir.exact == old(dir.exact))
    ensures log.Some? ==> fresh(log.value) && log.value.Valid() && log.value.dir == dir && log.value.limit == limit
    ensures log.Some? && limit > 0 && dir.exact ==> log.value.written < limit
    ensures limit > 0 && dir.exact && old(dir.exact ==> dir.Bounded()) ==> dir.Bounded()
  {
    hide Joined;
    // `create_dir_all` on the directory itself.
    var fault := dir.Fails();
    if fault {
      return None;
    }
    var existing := dir.Size();
    if existing >= limit {
      var ok := Rotate(dir);
      if !ok {
        return None;
      }
    }
    var written := dir.Size();
    var ok := dir.OpenCurrent();
    if !ok {
      return None;
    }
    var kept := new LogFile(dir, limit, written);
    return Some(kept);
  }

  // ---- Whole sessions ----

  // What became of a line: there whole, there in part, or nowhere.
  datatype Fate = Kept | Torn(n: nat) | Dropped

  datatype SessionFate = Unopened | Opened(fates: seq<Fate>)

  function Piece(line: string, fate: Fate): seq<string> {
    match fate
    case Kept => [line]
    case Torn(n) => if n <= |line| then [line[..n]] else []
    case Dropped => []
  }

  // What a session leaves in the log, line by line.
  function Pieces(lines: seq<string>, fates: seq<Fate>): seq<string>
    requires |lines| == |fates|
  {
    if lines == [] then []
    else
      var n := |lines| - 1;
      Pieces(lines[..n], fates[..n]) + Piece(lines[n], fates[n])
  }

  function Answers(fates: seq<Fate>): seq<bool> {
    seq(|fates|, i requires 0 <= i < |fates| => fates[i].Kept?)
  }

  function MissedLines(fates: seq<Fate>): nat {
    if fates == [] then 0
    else MissedLines(fates[..|fates| - 1]) + if fates[|fates| - 1].Kept? then 0 else 1
  }

  // The fates of a session's lines, as far as it was opened and could answer.
  predicate Fits(lines: seq<string>, answers: seq<bool>, fate: SessionFate) {
    match fate
    case Unopened => answers == []
    case Opened(fates) => |fates| == |lines| && answers == Answers(fates)
  }

  predicate AllFit(sessions: seq<seq<string>>, answers: seq<seq<bool>>, fates: seq<SessionFate>) {
    |fates| == |answers| == |sessions| && forall i | 0 <= i < |sessions| :: Fits(sessions[i], answers[i], fates[i])
  }

  function LeftBy(lines: seq<string>, fate: SessionFate): seq<string> {
    if fate.Opened? && |fate.fates| == |lines| then Pieces(lines, fate.fates) else []
  }

  function Left(sessions: seq<seq<string>>, fates: seq<SessionFate>): seq<string>
    requires |sessions| == |fates|
  {
    if sessions == [] then []
    else
      var n := |sessions| - 1;
      Left(sessions[..n], fates[..n]) + LeftBy(sessions[n], fates[n])
  }

  function Missed(fates: seq<SessionFate>): nat {
    if fates == [] then 0
    else
      var last := fates[|fates| - 1];
      Missed(fates[..|fates| - 1]) + if last.Unopened? then 1 else MissedLines(last.fates)
  }

  function Flattened(sessions: seq<seq<string>>): seq<string> {
    if sessions == [] then [] else Flattened(sessions[..|sessions| - 1]) + sessions[|sessions| - 1]
  }

  lemma {:induction false} NoLineMissed(lines: seq<string>, fates: seq<Fate>)
    requires |lines| == |fates| && MissedLines(fates) == 0
    ensures Pieces(lines, fates) == lines && forall i | 0 <= i < |fates| :: fates[i] == Kept
  {
    if lines != [] {
      var n := |lines| - 1;
      NoLineMissed(lines[..n], fates[..n]);
      assert fates[..n] + [fates[n]] == fates;
      assert lines[..n] + [lines[n]] == lines;
    }
  }

  // Nothing missed is every line there, in its order, and every append answered so.
  lemma {:induction false} NothingMissed(sessions: seq<seq<string>>, answers: seq<seq<bool>>, fates: seq<SessionFate>)
    requires AllFit(sessions, answers, fates) && Missed(fates) == 0
    ensures Left(sessions, fates) == Flattened(sessions)
    ensures forall i | 0 <= i < |sessions| :: |answers[i]| == |sessions[i]| && false !in answers[i]
  {
    hide Pieces, MissedLines, Fits, LeftBy;
    if sessions != [] {
      var n := |sessions| - 1;
      FewerFit(sessions, answers, fates, n);
      NothingMissed(sessions[..n], answers[..n], fates[..n]);
      LastNotMissed(sessions[n], answers[n], fates[n]);
      assert forall i | 0 <= i < n :: sessions[..n][i] == sessions[i] && answers[..n][i] == answers[i];
    }
  }

  lemma FewerFit(sessions: seq<seq<string>>, answers: seq<seq<bool>>, fates: seq<SessionFate>, n: nat)
    requires AllFit(sessions, answers, fates) && n <= |sessions|
    ensures AllFit(sessions[..n], answers[..n], fates[..n])
  {
    hide Fits;
  }

  lemma LastNotMissed(lines: seq<string>, answers: seq<bool>, fate: SessionFate)
    requires Fits(lines, answers, fate) && fate.Opened? && MissedLines(fate.fates) == 0
    ensures LeftBy(lines, fate) == lines && |answers| == |lines| && false !in answers
  {
    NoLineMissed(lines, fate.fates);
  }

  ghost predicate LongestOf(before: nat, after: nat, lines: seq<string>) {
    after == before || exists line | line in lines :: after == |line|
  }

  // One append, by what became of its line.
  method AppendOne(log: LogFile, line: string) returns (ok: bool, ghost fate: Fate)
    requires log.Valid() && log.limit > 0
    modifies log, log.dir
    ensures log.Valid() && ok == fate.Kept?
    ensures log.dir.history == old(log.dir.history) + Piece(line, fate)
    ensures old(log.dir.failures) + (if fate.Kept? then 0 else 1) <= log.dir.failures
    ensures log.dir.exact ==> old(log.dir.exact)
    ensures log.dir.failures == old(log.dir.failures) ==> log.dir.exact == old(log.dir.exact)
    ensures log.dir.longest == old(log.dir.longest) || log.dir.longest == |line|
    ensures log.dir.exact && old(log.dir.exact ==> log.dir.Bounded()) ==> log.dir.Bounded()
  {
    hide Joined, LogDir.Bounded;
    ghost var before := log.dir.history;
    ok := log.Append(line);
    fate := if ok then Kept else if log.dir.history == before then Dropped else TornAt(before, log.dir.history, line);
  }

  // One session's lines, each appended whatever the last answered.
  method AppendAll(log: LogFile, lines: seq<string>) returns (answers: seq<bool>, ghost fates: seq<Fate>)
    requires log.Valid() && log.limit > 0
    modifies log, log.dir
    ensures log.Valid() && |fates| == |lines| && answers == Answers(fates)
    ensures log.dir.history == old(log.dir.history) + Pieces(lines, fates)
    ensures old(log.dir.failures) + MissedLines(fates) <= log.dir.failures
    ensures log.dir.exact ==> old(log.dir.exact)
    ensures log.dir.failures == old(log.dir.failures) ==> log.dir.exact == old(log.dir.exact)
    ensures LongestOf(old(log.dir.longest), log.dir.longest, lines)
    ensures log.dir.exact && old(log.dir.exact ==> log.dir.Bounded()) ==> log.dir.Bounded()
  {
    hide Joined, Piece, Pieces, MissedLines, Answers, LongestOf, LogDir.Valid, LogFile.Valid, LogDir.Bounded;
    answers, fates := [], [];
    NoLinesYet(lines);
    StillLongest(log.dir.longest, log.dir.longest, lines);
    for j := 0 to |lines|
      invariant log.Valid() && |fates| == j && answers == Answers(fates)
      invariant log.dir.history == old(log.dir.history) + Pieces(lines[..j], fates)
      invariant old(log.dir.failures) + MissedLines(fates) <= log.dir.failures
      invariant log.dir.exact ==> old(log.dir.exact)
      invariant log.dir.failures == old(log.dir.failures) ==> log.dir.exact == old(log.dir.exact)
      invariant LongestOf(old(log.dir.longest), log.dir.longest, lines)
      invariant log.dir.exact && old(log.dir.exact ==> log.dir.Bounded()) ==> log.dir.Bounded()
    {
      ghost var longest := log.dir.longest;
      var ok;
      ghost var fate;
      ok, fate := AppendOne(log, lines[j]);
      OneLineMore(lines, fates, j, fate);
      StillLongest(longest, log.dir.longest, lines);
      answers, fates := answers + [ok], fates + [fate];
    }
    assert lines[..|lines|] == lines;
  }

  lemma StillLongest(now: nat, next: nat, lines: seq<string>)
    ensures next == now || (exists line | line in lines :: next == |line|) ==>
              forall before | LongestOf(before, now, lines) :: LongestOf(before, next, lines)
    ensures LongestOf(now, now, lines)
  {
  }

  ghost function TornAt(before: seq<string>, after: seq<string>, line: string): (fate: Fate)
    requires exists n: nat :: n <= |line| && after == before + [line[..n]]
    ensures !fate.Kept? && after == before + Piece(line, fate)
  {
    var n: nat :| n <= |line| && after == before + [line[..n]];
    Torn(n)
  }

  lemma NoLinesYet(lines: seq<string>)
    ensures Pieces(lines[..0], []) == [] && MissedLines([]) == 0 && Answers([]) == []
  {
  }

  lemma OneLineMore(lines: seq<string>, fates: seq<Fate>, j: nat, fate: Fate)
    requires j == |fates| < |lines|
    ensures Pieces(lines[..j + 1], fates + [fate]) == Pieces(lines[..j], fates) + Piece(lines[j], fate)
    ensures MissedLines(fates + [fate]) == MissedLines(fates) + if fate.Kept? then 0 else 1
    ensures Answers(fates + [fate]) == Answers(fates) + [fate.Kept?]
  {
    OneMorePiece(lines, fates, j, fate);
    OneMoreMissed(fates, fate);
    OneMoreAnswer(fates, fate);
    hide *;
  }

  lemma OneMorePiece(lines: seq<string>, fates: seq<Fate>, j: nat, fate: Fate)
    requires j == |fates| < |lines|
    ensures Pieces(lines[..j + 1], fates + [fate]) == Pieces(lines[..j], fates) + Piece(lines[j], fate)
  {
    hide Piece;
    GrownByOne(lines, j, fates, fate);
  }

  lemma OneMoreAnswer(fates: seq<Fate>, fate: Fate)
    ensures Answers(fates + [fate]) == Answers(fates) + [fate.Kept?]
  {
    var all := fates + [fate];
    forall i | 0 <= i < |all| ensures Answers(all)[i] == (Answers(fates) + [fate.Kept?])[i] {
      assert all[i] == if i < |fates| then fates[i] else fate;
    }
  }

  lemma OneMoreMissed(fates: seq<Fate>, fate: Fate)
    ensures MissedLines(fates + [fate]) == MissedLines(fates) + if fate.Kept? then 0 else 1
  {
    assert (fates + [fate])[..|fates|] == fates;
  }

  lemma OneSessionMore(sessions: seq<seq<string>>, fates: seq<SessionFate>, i: nat, fate: SessionFate)
    requires i == |fates| < |sessions|
    ensures Left(sessions[..i + 1], fates + [fate]) == Left(sessions[..i], fates) + LeftBy(sessions[i], fate)
    ensures Missed(fates + [fate]) == Missed(fates) + if fate.Unopened? then 1 else MissedLines(fate.fates)
  {
    hide LeftBy, MissedLines;
    GrownByOne(sessions, i, fates, fate);
  }

  // One session: opened, if it can be, and its lines appended.
  method Session(dir: LogDir, limit: nat, lines: seq<string>) returns (answers: seq<bool>, ghost fate: SessionFate)
    requires dir.Valid() && dir.limit == limit > 0
    modifies dir
    ensures dir.Valid() && Fits(lines, answers, fate)
    ensures dir.history == old(dir.history) + LeftBy(lines, fate)
    ensures old(dir.failures) + (if fate.Unopened? then 1 else MissedLines(fate.fates)) <= dir.failures
    ensures (dir.exact ==> old(dir.exact)) && (dir.failures == old(dir.failures) ==> dir.exact == old(dir.exact))
    ensures LongestOf(old(dir.longest), dir.longest, lines)
    ensures dir.exact && old(dir.exact ==> dir.Bounded()) ==> dir.Bounded()
  {
    hide Joined, Pieces, MissedLines, LogDir.Bounded;
    StillLongest(dir.longest, dir.longest, lines);
    var log := Open(dir, limit);
    if log.None? {
      answers, fate := [], Unopened;
      return;
    }
    ghost var fates;
    answers, fates := AppendAll(log.value, lines);
    fate := Opened(fates);
  }

  // Session after session, with whatever fails failing. What the log gains is the sessions'
  // lines in their order, but for those that failed calls account for, one each, and every
  // append that answered well is there whole. What is on the disk is the end of it all, at
  // least the limit of it, and - sizes having been read and lines written whole - in either
  // file never more than the limit and one line.
  method Sessions(dir: LogDir, limit: nat, sessions: seq<seq<string>>)
    returns (answers: seq<seq<bool>>, ghost fates: seq<SessionFate>)
    requires dir.Valid() && dir.limit == limit > 0 && dir.Bounded()
    modifies dir
    ensures dir.Valid() && AllFit(sessions, answers, fates)
    ensures dir.history == old(dir.history) + Left(sessions, fates)
    ensures old(dir.failures) + Missed(fates) <= dir.failures
    ensures dir.failures == old(dir.failures) ==> dir.history == old(dir.history) + Flattened(sessions)
    ensures dir.failures == old(dir.failures) ==> dir.exact == old(dir.exact)
    ensures dir.exact ==> dir.Bounded()
    ensures LongestOf(old(dir.longest), dir.longest, Flattened(sessions))
    ensures exists lost: string :: Joined(dir.history) == lost + (Content(dir.rotated) + Content(dir.current))
    ensures |Content(dir.rotated)| + |Content(dir.current)| >= Smaller(|Joined(dir.history)|, limit)
  {
    hide Joined, Left, Missed, Fits, LogDir.Bounded, Flattened, LongestOf;
    answers, fates := [], [];
    NothingLeftYet(sessions);
    StillLongest(dir.longest, dir.longest, Flattened(sessions[..0]));
    for i := 0 to |sessions|
      invariant dir.Valid() && (dir.exact ==> dir.Bounded())
      invariant |fates| == |answers| == i && forall k | 0 <= k < i :: Fits(sessions[k], answers[k], fates[k])
      invariant dir.history == old(dir.history) + Left(sessions[..i], fates)
      invariant old(dir.failures) + Missed(fates) <= dir.failures
      invariant dir.failures == old(dir.failures) ==> dir.exact == old(dir.exact)
      invariant LongestOf(old(dir.longest), dir.longest, Flattened(sessions[..i]))
    {
      ghost var before, longest := fates, dir.longest;
      var answered;
      ghost var fate;
      answered, fate := Session(dir, limit, sessions[i]);
      OneSessionMore(sessions, before, i, fate);
      LongestOfMore(longest, dir.longest, sessions, i);
      answers, fates := answers + [answered], fates + [fate];
    }
    assert sessions[..|sessions|] == sessions;
    if dir.failures == old(dir.failures) {
      NothingMissed(sessions, answers, fates);
    }
    dir.KeepsTheEnd();
  }

  lemma LongestOfMore(now: nat, next: nat, sessions: seq<seq<string>>, i: nat)
    requires i < |sessions| && LongestOf(now, next, sessions[i])
    ensures forall before | LongestOf(before, now, Flattened(sessions[..i])) ::
              LongestOf(before, next, Flattened(sessions[..i + 1]))
  {
    assert sessions[..i + 1][..i] == sessions[..i];
    assert Flattened(sessions[..i + 1]) == Flattened(sessions[..i]) + sessions[i];
  }

  lemma NothingLeftYet(sessions: seq<seq<string>>)
    ensures Left(sessions[..0], []) == [] && Missed([]) == 0
  {
  }
}
