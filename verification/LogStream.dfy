/** logStream of cmd/tsks-helper/files.go: lines put together from arbitrary buffers, redacted, and appended to a
    live file that is renamed to one backup when it would grow past the limit. */
module LogStream {
  import opened Wrappers
  import opened Text

  const MAX_LINE := 65536
  const OMITTED := "[oversized log entry omitted]\n"

  /** How a ReadSlice call ended: at a newline, with a full buffer, at the end of the input, or failing. */
  datatype Stop = Newline | Full | Eof | Failed

  datatype Part = Part(data: string, stop: Stop)

  /** What goes wrong with the files at one entry. `kept` bytes of a failing write still land. */
  datatype Fault = Fine | RenameFails(removed: bool) | OpenFails | WriteFails(kept: nat)

  /** The live file and its one backup. */
  datatype Files = Files(live: Option<string>, backup: Option<string>)

  datatype Result = Ended | InputFailed | FilesFailed

  type Redaction = string -> string

  // ---- Specification ---------------------------------------------------------------------------------------

  /** The input as lines, each with its newline; the last one may lack it. */
  function Lines(text: string): seq<string>
    decreases |text|
  {
    var i := Index(text, '\n');
    if i == |text| then (if text == "" then [] else [text])
    else [text[..i + 1]] + Lines(text[i + 1..])
  }

  /** What is written for one line. */
  function Entry(line: string, redact: Redaction): string {
    redact(if |line| <= MAX_LINE then line else OMITTED)
  }

  function Written(lines: seq<string>, redact: Redaction): string {
    if lines == [] then "" else Written(lines[..|lines| - 1], redact) + Entry(lines[|lines| - 1], redact)
  }

  function Input(parts: seq<Part>): string {
    if parts == [] then "" else Input(parts[..|parts| - 1]) + parts[|parts| - 1].data
  }

  /** Buffers as ReadSlice hands them out: a newline only at the end of a buffer that stopped there, and the
      end of the input, or an error, in the last. Their sizes do not matter. */
  predicate WellCut(parts: seq<Part>) {
    && |parts| > 0
    && (forall i | 0 <= i < |parts| :: PartOk(parts[i]))
    && (forall i | 0 <= i < |parts| - 1 :: parts[i].stop.Newline? || parts[i].stop.Full?)
    && (parts[|parts| - 1].stop.Eof? || parts[|parts| - 1].stop.Failed?)
  }

  predicate PartOk(p: Part) {
    if p.stop.Newline? then p.data != "" && p.data[|p.data| - 1] == '\n' && '\n' !in p.data[..|p.data| - 1]
    else '\n' !in p.data
  }

  predicate NoBreak(line: string) {
    '\n' !in line
  }

  /** A line put together from buffers, the last of which stopped like this. */
  predicate WholeOk(stop: Stop, whole: string) {
    if stop.Newline? then whole != "" && whole[|whole| - 1] == '\n' && NoBreak(whole[..|whole| - 1]) else NoBreak(whole)
  }

  predicate IsSuffix(s: string, of_: string) {
    |s| <= |of_| && of_[|of_| - |s|..] == s
  }

  /** No entry of these lines is longer than m. */
  predicate EntriesWithin(lines: seq<string>, redact: Redaction, m: nat) {
    forall l | l in lines :: |Entry(l, redact)| <= m
  }

  function Content(file: Option<string>): string {
    if file.Some? then file.value else ""
  }

  /** The entry would make the live file too long. */
  predicate Rotates(f: Files, entry: string, limit: nat) {
    f.live.Some? && |f.live.value| + |entry| > limit
  }

  /** The fault keeps this entry from being written whole; a rename can only fail where one is tried. */
  predicate Bites(f: Files, entry: string, limit: nat, fault: Fault) {
    match fault
    case Fine => false
    case RenameFails(_) => Rotates(f, entry, limit)
    case OpenFails => true
    case WriteFails(_) => true
  }

  /** The part of the entry that is written. */
  function Kept(f: Files, entry: string, limit: nat, fault: Fault): string {
    if !Bites(f, entry, limit, fault) then entry
    else if fault.WriteFails? then (if fault.kept < |entry| then entry[..fault.kept] else entry)
    else ""
  }

  /** The files after one entry. */
  function Put(f: Files, entry: string, limit: nat, fault: Fault): Files {
    if Rotates(f, entry, limit) && fault.RenameFails? then (if fault.removed then f.(backup := None) else f)
    else
      var g := if Rotates(f, entry, limit) then Files(None, f.live) else f;
      if fault.OpenFails? then g else g.(live := Some(Content(g.live) + Kept(f, entry, limit, fault)))
  }

  /** The files after the entries of these lines, whatever the faults. */
  function FilesAfter(f: Files, lines: seq<string>, redact: Redaction, limit: nat, faults: nat -> Fault): Files {
    if lines == [] then f
    else
      var n := |lines| - 1;
      Put(FilesAfter(f, lines[..n], redact, limit, faults), Entry(lines[n], redact), limit, faults(n))
  }

  /** No fault bites at any of these lines. */
  predicate Clears(f: Files, lines: seq<string>, redact: Redaction, limit: nat, faults: nat -> Fault) {
    lines == [] ||
    var n := |lines| - 1;
    && Clears(f, lines[..n], redact, limit, faults)
    && !Bites(FilesAfter(f, lines[..n], redact, limit, faults), Entry(lines[n], redact), limit, faults(n))
  }

  predicate Within(f: Files, limit: nat, m: nat) {
    var bound := if limit < m then m else limit;
    |Content(f.live)| <= bound && |Content(f.backup)| <= bound
  }

  lemma PutWithin(f: Files, entry: string, limit: nat, fault: Fault, m: nat)
    requires |entry| <= m && Within(f, limit, m)
    ensures Within(Put(f, entry, limit, fault), limit, m)
  {
  }

  /** From files within the bound, entries within it keep both files within it. */
  lemma {:induction false} FilesStayWithin(f: Files, lines: seq<string>, redact: Redaction, limit: nat,
                                           faults: nat -> Fault, m: nat)
    requires EntriesWithin(lines, redact, m) && Within(f, limit, m)
    ensures Within(FilesAfter(f, lines, redact, limit, faults), limit, m)
  {
    hide Within, Put, Entry;
    if lines != [] {
      var n := |lines| - 1;
      assert EntriesWithin(lines[..n], redact, m);
      FilesStayWithin(f, lines[..n], redact, limit, faults, m);
      PutWithin(FilesAfter(f, lines[..n], redact, limit, faults), Entry(lines[n], redact), limit, faults(n), m);
    }
  }

  predicate IsPrefixOf(s: string, of_: string) {
    |s| <= |of_| && of_[..|s|] == s
  }

  /** While the live file and everything written after it fit, nothing is moved or dropped, whatever the faults:
      the backup stays, the live file only grows, and without a fault it grows by just these entries. */
  lemma {:induction false} NothingMovesWhileItFits(f: Files, lines: seq<string>, redact: Redaction, limit: nat,
                                                   faults: nat -> Fault)
    requires |Content(f.live)| + |Written(lines, redact)| <= limit
    ensures var g := FilesAfter(f, lines, redact, limit, faults);
      && g.backup == f.backup && IsPrefixOf(Content(f.live), Content(g.live))
      && |Content(g.live)| <= |Content(f.live)| + |Written(lines, redact)|
      && (Clears(f, lines, redact, limit, faults) ==> Content(g.live) == Content(f.live) + Written(lines, redact))
  {
    hide Entry, Put;
    if lines == [] {
      assert Content(f.live) + "" == Content(f.live);
    } else {
      var n := |lines| - 1;
      NothingMovesWhileItFits(f, lines[..n], redact, limit, faults);
      var h, entry := FilesAfter(f, lines[..n], redact, limit, faults), Entry(lines[n], redact);
      PutWhileItFits(h, entry, limit, faults(n));
      assert Content(f.live) + (Written(lines[..n], redact) + entry) == Content(f.live) + Written(lines[..n], redact) + entry;
    }
  }

  lemma PutWhileItFits(f: Files, entry: string, limit: nat, fault: Fault)
    requires |Content(f.live)| + |entry| <= limit
    ensures var g := Put(f, entry, limit, fault);
      && g.backup == f.backup && Content(g.live) == Content(f.live) + Kept(f, entry, limit, fault)
      && |Kept(f, entry, limit, fault)| <= |entry|
      && (!Bites(f, entry, limit, fault) ==> Kept(f, entry, limit, fault) == entry)
  {
    assert Content(f.live) + "" == Content(f.live);
  }

  /** And when an entry does not fit, the whole live file becomes the backup and the entry starts a new one. */
  lemma MovesWhenItDoesNotFit(f: Files, entry: string, limit: nat)
    requires f.live.Some? && |f.live.value| + |entry| > limit
    ensures Put(f, entry, limit, Fine) == Files(Some(entry), f.live)
  {
    assert "" + entry == entry;
  }

  lemma {:induction false} ClearsPrefix(f: Files, lines: seq<string>, n: nat, redact: Redaction, limit: nat,
                                        faults: nat -> Fault)
    requires n < |lines| && Clears(f, lines, redact, limit, faults)
    ensures Clears(f, lines[..n], redact, limit, faults)
    ensures !Bites(FilesAfter(f, lines[..n], redact, limit, faults), Entry(lines[n], redact), limit, faults(n))
    decreases |lines|
  {
    hide FilesAfter, Bites, Entry;
    if n < |lines| - 1 {
      assert lines[..|lines| - 1][..n] == lines[..n];
      ClearsPrefix(f, lines[..|lines| - 1], n, redact, limit, faults);
    }
  }

  // ---- Lines of joined text ----------------------------------------------------------------------------------

  predicate AtLineStart(text: string) {
    text == "" || text[|text| - 1] == '\n'
  }

  lemma {:induction false} IndexOf(s: string, c: char)
    ensures Index(s, c) < |s| <==> c in s
  {
    if s != "" && s[0] != c {
      IndexOf(s[1..], c);
      assert s == [s[0]] + s[1..];
    }
  }

  lemma FirstLine(head: string, rest: string)
    requires '\n' !in head
    ensures Lines(head + "\n" + rest) == [head + "\n"] + Lines(rest)
  {
    var text := head + "\n" + rest;
    IndexAfter(head, '\n', rest);
    assert text[..|head| + 1] == head + "\n" && text[|head| + 1..] == rest;
  }

  lemma {:induction false} LinesJoin(a: string, b: string)
    requires AtLineStart(a)
    ensures Lines(a + b) == Lines(a) + Lines(b)
    decreases |a|
  {
    hide Lines, Index;
    if a == "" {
      assert a + b == b && Lines(a) == [] by { NoLines(); }
    } else {
      IndexOf(a, '\n');
      IndexFirst(a, '\n');
      assert a[|a| - 1] == '\n';
      var i := Index(a, '\n');
      var head, rest := a[..i], a[i + 1..];
      assert a == head + "\n" + rest;
      assert a + b == head + "\n" + (rest + b);
      FirstLine(head, rest);
      FirstLine(head, rest + b);
      LinesJoin(rest, b);
    }
  }

  lemma NoLines()
    ensures Lines("") == []
  {
  }

  lemma LastLine(line: string)
    requires line != "" && '\n' !in line
    ensures Lines(line) == [line]
  {
  }

  lemma WholeLine(head: string)
    requires '\n' !in head
    ensures Lines(head + "\n") == [head + "\n"]
  {
    hide Lines;
    FirstLine(head, "");
    NoLines();
    assert head + "\n" + "" == head + "\n";
  }

  lemma SuffixGrows(s: string, t: string, more: string)
    requires IsSuffix(s, t)
    ensures IsSuffix(s + more, t + more)
  {
  }

  lemma SuffixOfSuffix(dropped: string, s: string, t: string)
    requires IsSuffix(dropped + s, t)
    ensures IsSuffix(s, t)
  {
  }

  // ---- The program -------------------------------------------------------------------------------------------

  class LogFiles {
    var files: Files
    /** Everything the two files ever held. */
    ghost var all: string

    constructor (current: Files)
      ensures files == current && all == Content(current.backup) + Content(current.live) && Valid()
    {
      files, all := current, Content(current.backup) + Content(current.live);
    }

    /** The backup followed by the live file is what was written last. */
    ghost predicate Valid()
      reads this
    {
      IsSuffix(Content(files.backup) + Content(files.live), all)
    }

    /** The live file becomes the backup; the old backup goes first. */
    method Rotate(fault: Fault) returns (ok: bool)
      requires Valid() && files.live.Some?
      modifies this`files
      ensures Valid() && (ok <==> !fault.RenameFails?)
      ensures files == if ok then Files(None, old(files).live)
                       else if fault.RenameFails? && fault.removed then old(files).(backup := None) else old(files)
    {
      hide IsSuffix;
      if !fault.RenameFails? || fault.removed {
        SuffixOfSuffix(Content(files.backup), Content(files.live), all);
        files := files.(backup := None);
        assert "" + Content(files.live) == Content(files.live);
      }
      if fault.RenameFails? { return false; }
      assert Content(files.live) + "" == Content(files.live);
      files := Files(None, files.live);
      ok := true;
    }

    /** Opening the live file for appending, and one write. */
    method Write(clean: string, fault: Fault) returns (ok: bool)
      requires Valid()
      modifies this
      ensures Valid()
      ensures ok <==> !fault.OpenFails? && !fault.WriteFails?
      ensures fault.OpenFails? ==> files == old(files) && all == old(all)
      ensures !fault.OpenFails? ==>
                var kept := if fault.WriteFails? && fault.kept < |clean| then clean[..fault.kept] else clean;
                files == old(files).(live := Some(Content(old(files).live) + kept)) && all == old(all) + kept
    {
      hide IsSuffix;
      if fault.OpenFails? { return false; }
      if files.live.None? { files := files.(live := Some("")); }
      var written := if fault.WriteFails? && fault.kept < |clean| then clean[..fault.kept] else clean;
      SuffixGrows(Content(files.backup) + Content(files.live), all, written);
      assert Content(files.backup) + (Content(files.live) + written) == (Content(files.backup) + Content(files.live)) + written;
      files := files.(live := Some(files.live.value + written));
      all := all + written;
      ok := !fault.WriteFails?;
    }

    /** One entry: rotate if it would not fit, then append. It fails exactly when the fault bites. */
    method AppendEntry(clean: string, limit: nat, fault: Fault) returns (ok: bool)
      requires Valid()
      modifies this
      ensures Valid()
      ensures ok <==> !Bites(old(files), clean, limit, fault)
      ensures files == Put(old(files), clean, limit, fault)
      ensures all == old(all) + Kept(old(files), clean, limit, fault)
    {
      hide IsSuffix;
      assert all + "" == all;
      if files.live.Some? && |files.live.value| + |clean| > limit {
        ok := Rotate(fault);
        if !ok { return; }
      }
      ok := Write(clean, fault);
    }

    /** logStream(): whatever the buffers, the lines of the input come out one by one, up to the first one at
        which a fault bites. */
    method Stream(parts: seq<Part>, redact: Redaction, limit: nat, faults: nat -> Fault) returns (r: Result)
      requires WellCut(parts) && Valid()
      modifies this
      ensures Valid()
      ensures r == if !Clears(old(files), Lines(Input(parts)), redact, limit, faults) then FilesFailed
                   else if parts[|parts| - 1].stop.Eof? then Ended else InputFailed
      ensures !r.FilesFailed? ==>
                && all == old(all) + Written(Lines(Input(parts)), redact)
                && files == FilesAfter(old(files), Lines(Input(parts)), redact, limit, faults)
      ensures r.FilesFailed? ==> CutShort(old(files), old(all), files, all, Lines(Input(parts)), redact, limit, faults)
    {
      hide IsSuffix, Lines, Written, Input, Entry, CutShort, NoBreak, AtLineStart, WholeOk, PartOk, Bites, Put, Kept,
           FilesAfter, Clears;
      var line, oversized, entries := "", false, 0;
      ghost var before, current := "", "";
      ghost var lines := Lines(Input(parts));
      StreamBegins(parts, files, redact, limit, faults);
      var i := 0;
      while i < |parts|
        invariant 0 <= i <= |parts| && Valid()
        invariant i > 0 ==> !parts[i - 1].stop.Eof? && !parts[i - 1].stop.Failed?
        invariant Input(parts[..i]) == before + current && AtLineStart(before) && NoBreak(current)
        invariant oversized == (|current| > MAX_LINE) && line == if oversized then "" else current
        invariant entries == |Lines(before)| && Reached(old(files), old(all), files, all, Lines(before), redact, limit, faults)
      {
        var part := parts[i].data;
        if |line| + |part| <= MAX_LINE && !oversized {
          line := line + part;
        } else {
          oversized := true;
          line := "";
        }
        ghost var whole := current + part;
        NextPart(parts, i, before, current);
        i := i + 1;
        if parts[i - 1].stop.Full? {
          current := whole;
          UnbrokenPart(parts[i - 1].stop, whole);
          continue;
        }
        CutAt(parts, i, before, whole);
        if |line| > 0 || oversized {
          var clean := redact(if oversized then OMITTED else line);
          EntryIs(whole, redact);
          ghost var f, was := files, all;
          var ok := AppendEntry(clean, limit, faults(entries));
          LineWritten(old(files), old(all), f, was, before, whole, Input(parts), redact, limit, faults);
          if !ok { return FilesFailed; }
          entries := entries + 1;
        } else {
          assert Lines(before) + [] == Lines(before);
        }
        before, current := before + whole, "";
        line, oversized := "", false;
        if parts[i - 1].stop.Eof? { return Ended; }
        if parts[i - 1].stop.Failed? { return InputFailed; }
      }
      assert false;
    }
  }

  /** Both files stay within the larger of the limit and the longest entry, if they were at the start. */
  lemma StreamStaysWithin(f: Files, text: string, redact: Redaction, limit: nat, faults: nat -> Fault, m: nat, n: nat)
    requires EntriesWithin(Lines(text), redact, m) && Within(f, limit, m) && n <= |Lines(text)|
    ensures Within(FilesAfter(f, Lines(text)[..n], redact, limit, faults), limit, m)
  {
    assert EntriesWithin(Lines(text)[..n], redact, m);
    FilesStayWithin(f, Lines(text)[..n], redact, limit, faults, m);
  }

  /** All of these lines have been written, and no fault has bitten. */
  predicate Reached(f: Files, was: string, g: Files, now: string, lines: seq<string>,
                    redact: Redaction, limit: nat, faults: nat -> Fault) {
    && Clears(f, lines, redact, limit, faults) && g == FilesAfter(f, lines, redact, limit, faults)
    && now == was + Written(lines, redact)
  }

  /** The first bite is at line n: the lines before it are written, and of its entry what the fault lets through. */
  predicate StopsAt(f: Files, was: string, g: Files, now: string, lines: seq<string>, n: nat,
                    redact: Redaction, limit: nat, faults: nat -> Fault) {
    n < |lines| &&
    var h := FilesAfter(f, lines[..n], redact, limit, faults);
    && Clears(f, lines[..n], redact, limit, faults) && Bites(h, Entry(lines[n], redact), limit, faults(n))
    && g == FilesAfter(f, lines[..n + 1], redact, limit, faults)
    && now == was + Written(lines[..n], redact) + Kept(h, Entry(lines[n], redact), limit, faults(n))
  }

  ghost predicate CutShort(f: Files, was: string, g: Files, now: string, lines: seq<string>,
                           redact: Redaction, limit: nat, faults: nat -> Fault) {
    exists n: nat :: StopsAt(f, was, g, now, lines, n, redact, limit, faults)
  }

  lemma EntryIs(whole: string, redact: Redaction)
    ensures Entry(whole, redact) == redact(if |whole| > MAX_LINE then OMITTED else whole)
  {
  }

  lemma StreamBegins(parts: seq<Part>, f: Files, redact: Redaction, limit: nat, faults: nat -> Fault)
    ensures Input(parts[..0]) == "" + "" && AtLineStart("") && NoBreak("") && Lines("") == []
    ensures Written([], redact) == "" && Clears(f, [], redact, limit, faults) && FilesAfter(f, [], redact, limit, faults) == f
  {
  }

  lemma UnbrokenPart(stop: Stop, whole: string)
    requires WholeOk(stop, whole)
    ensures !stop.Newline? ==> NoBreak(whole)
    ensures NoBreak("")
  {
  }

  lemma NextPart(parts: seq<Part>, i: nat, before: string, current: string)
    requires i < |parts| && Input(parts[..i]) == before + current && NoBreak(current) && PartOk(parts[i])
    ensures Input(parts[..i + 1]) == before + (current + parts[i].data)
    ensures WholeOk(parts[i].stop, current + parts[i].data)
  {
    assert parts[..i + 1][..i] == parts[..i];
  }

  /** One line more of the input has been written, or its fault has bitten. */
  lemma LineWritten(f: Files, start: string, g: Files, was: string, before: string, whole: string, text: string,
                    redact: Redaction, limit: nat, faults: nat -> Fault)
    requires whole != "" && Lines(before + whole) == Lines(before) + [whole] && Lines(before + whole) <= Lines(text)
    requires Reached(f, start, g, was, Lines(before), redact, limit, faults)
    ensures var n, e := |Lines(before)|, Entry(whole, redact);
            var h, now := Put(g, e, limit, faults(n)), was + Kept(g, e, limit, faults(n));
            if Bites(g, e, limit, faults(n))
            then CutShort(f, start, h, now, Lines(text), redact, limit, faults) && !Clears(f, Lines(text), redact, limit, faults)
            else Reached(f, start, h, now, Lines(before + whole), redact, limit, faults)
  {
    hide Lines, Entry, Bites, Put, Kept, Reached, Clears, CutShort;
    var n, e, all, next := |Lines(before)|, Entry(whole, redact), Lines(text), Lines(before + whole);
    assert next[..n] == Lines(before) && next[n] == whole;
    assert all[..n] == next[..n] && all[n] == next[n] && all[..n + 1] == next;
    if Bites(g, e, limit, faults(n)) {
      LineStops(f, start, g, was, all, n, redact, limit, faults);
    } else {
      LineReached(f, start, g, was, Lines(before), whole, redact, limit, faults);
    }
  }

  lemma LineStops(f: Files, start: string, g: Files, was: string, lines: seq<string>, n: nat,
                  redact: Redaction, limit: nat, faults: nat -> Fault)
    requires n < |lines| && Reached(f, start, g, was, lines[..n], redact, limit, faults)
    requires Bites(g, Entry(lines[n], redact), limit, faults(n))
    ensures var e := Entry(lines[n], redact);
            CutShort(f, start, Put(g, e, limit, faults(n)), was + Kept(g, e, limit, faults(n)), lines, redact, limit, faults)
    ensures !Clears(f, lines, redact, limit, faults)
  {
    hide Entry, Bites, Put, Kept, Written, Clears;
    var e := Entry(lines[n], redact);
    assert lines[..n + 1][..n] == lines[..n];
    assert StopsAt(f, start, Put(g, e, limit, faults(n)), was + Kept(g, e, limit, faults(n)), lines, n, redact, limit, faults);
    if Clears(f, lines, redact, limit, faults) {
      ClearsPrefix(f, lines, n, redact, limit, faults);
    }
  }

  lemma LineReached(f: Files, start: string, g: Files, was: string, lines: seq<string>, line: string,
                    redact: Redaction, limit: nat, faults: nat -> Fault)
    requires Reached(f, start, g, was, lines, redact, limit, faults)
    requires !Bites(g, Entry(line, redact), limit, faults(|lines|))
    ensures var e := Entry(line, redact);
            Reached(f, start, Put(g, e, limit, faults(|lines|)), was + Kept(g, e, limit, faults(|lines|)), lines + [line],
                    redact, limit, faults)
  {
    hide Entry, Put;
    assert (lines + [line])[..|lines|] == lines;
    assert start + Written(lines, redact) + Entry(line, redact) == start + (Written(lines, redact) + Entry(line, redact));
  }

  lemma {:induction false} InputSplit(parts: seq<Part>, i: nat)
    requires i <= |parts|
    ensures Input(parts) == Input(parts[..i]) + Input(parts[i..])
    decreases |parts| - i
  {
    if i == |parts| {
      assert parts[..i] == parts;
    } else {
      var n := |parts| - 1;
      var rest := parts[i..];
      InputSplit(parts[..n], i);
      assert Input(parts) == Input(parts[..n]) + parts[n].data;
      assert Input(rest) == Input(rest[..n - i]) + rest[n - i].data;
      hide Input;
      assert parts[..n][..i] == parts[..i] && rest[..n - i] == parts[..n][i..];
    }
  }

  /** A buffer that ends a line, or the input, completes the line begun by the buffers before it. */
  lemma CutAt(parts: seq<Part>, i: nat, before: string, whole: string)
    requires WellCut(parts) && 0 < i <= |parts| && !parts[i - 1].stop.Full?
    requires Input(parts[..i]) == before + whole && AtLineStart(before)
    requires WholeOk(parts[i - 1].stop, whole)
    ensures parts[i - 1].stop.Newline? ==> AtLineStart(before + whole)
    ensures Lines(before + whole) == Lines(before) + if whole == "" then [] else [whole]
    ensures Lines(before + whole) <= Lines(Input(parts))
    ensures !parts[i - 1].stop.Newline? ==> before + whole == Input(parts)
  {
    hide Lines;
    LinesJoin(before, whole);
    InputSplit(parts, i);
    if parts[i - 1].stop.Newline? {
      WholeLine(whole[..|whole| - 1]);
      assert whole == whole[..|whole| - 1] + "\n";
      LinesJoin(before + whole, Input(parts[i..]));
    } else {
      if whole == "" { NoLines(); } else { LastLine(whole); }
      assert i == |parts| && parts[..i] == parts;
    }
  }
}
