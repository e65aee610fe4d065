/** The rotating log file: numbered files, a buffered writer and a size that triggers the shift. */
module LogSink {

  import opened Options

  /** File contents, a character a byte. */
  type Bytes = string
  type Files = map<string, Bytes>

  // ----- File names

  function Digit(d: nat): char
    requires d < 10
  {
    "0123456789"[d]
  }

  function Decimal(n: nat): string {
    if n < 10 then [Digit(n)] else Decimal(n / 10) + [Digit(n % 10)]
  }

  function RotName(base: string, n: nat): string {
    base + "." + Decimal(n)
  }

  lemma {:induction false} DecimalInjective(m: nat, n: nat)
    requires Decimal(m) == Decimal(n)
    ensures m == n
  {
    var a, b := Decimal(m), Decimal(n);
    assert a[|a| - 1] == b[|b| - 1];
    DecimalNotEmpty(m / 10);
    DecimalNotEmpty(n / 10);
    if m >= 10 && n >= 10 {
      assert a[..|a| - 1] == Decimal(m / 10) && b[..|b| - 1] == Decimal(n / 10);
      DecimalInjective(m / 10, n / 10);
    }
  }

  lemma DecimalNotEmpty(n: nat)
    ensures |Decimal(n)| > 0
  {
  }

  /** The base file and its numbered ones are all different files. */
  lemma RotNamesDiffer(base: string, m: nat, n: nat)
    ensures RotName(base, m) != base
    ensures RotName(base, m) == RotName(base, n) ==> m == n
  {
    if RotName(base, m) == RotName(base, n) {
      assert Decimal(m) == RotName(base, m)[|base| + 1..] && Decimal(n) == RotName(base, n)[|base| + 1..];
      DecimalInjective(m, n);
    }
  }

  // ----- What was written, cut into files

  function Flatten(parts: seq<Bytes>): Bytes {
    if parts == [] then "" else Flatten(parts[..|parts| - 1]) + parts[|parts| - 1]
  }

  /** The closed files, oldest first, and the open one, after these lines. */
  datatype Cut = Cut(closed: seq<Bytes>, open: Bytes)

  ghost function Lines(limit: nat, lines: seq<Bytes>): Cut {
    if lines == [] then Cut([], "") else
    var before := Lines(limit, lines[..|lines| - 1]);
    var open := before.open + lines[|lines| - 1];
    if |open| >= limit then Cut(before.closed + [open], "") else Cut(before.closed, open)
  }

  /** How many closed files are gone when only the last keep are retained. */
  ghost function Gone(closed: nat, keep: nat): nat {
    if closed <= keep then 0 else closed - keep
  }

  /** The last keep closed files, or all of them if there are fewer. */
  ghost function Last(closed: seq<Bytes>, keep: nat): seq<Bytes> {
    closed[Gone(|closed|, keep)..]
  }

  /** Reading the retained files, oldest first: the last keep closed ones and the open one. */
  ghost function Retained(cut: Cut, keep: nat): Bytes {
    Flatten(Last(cut.closed, keep)) + cut.open
  }

  lemma {:induction false} FlattenAppends(a: seq<Bytes>, b: seq<Bytes>)
    ensures Flatten(a + b) == Flatten(a) + Flatten(b)
  {
    if b == [] {
      assert a + b == a;
    } else {
      assert (a + b)[..|a + b| - 1] == a + b[..|b| - 1];
      FlattenAppends(a, b[..|b| - 1]);
    }
  }

  /** Nothing written is lost or reordered by cutting it into files. */
  lemma {:induction false} CutKeepsEverything(limit: nat, lines: seq<Bytes>)
    ensures Flatten(Lines(limit, lines).closed) + Lines(limit, lines).open == Flatten(lines)
  {
    if lines != [] {
      CutKeepsEverything(limit, lines[..|lines| - 1]);
      var before := Lines(limit, lines[..|lines| - 1]);
      FlattenAppends(before.closed, [before.open + lines[|lines| - 1]]);
      assert Flatten([before.open + lines[|lines| - 1]]) == before.open + lines[|lines| - 1] by {
        assert Flatten([before.open + lines[|lines| - 1]][..0]) == "";
      }
    }
  }

  /** The retained files are the end of everything written, and begin where a file was cut. */
  lemma RetainedIsSuffix(limit: nat, lines: seq<Bytes>, keep: nat)
    ensures var cut := Lines(limit, lines);
            Flatten(lines) == Flatten(cut.closed[..Gone(|cut.closed|, keep)]) + Retained(cut, keep)
  {
    var cut := Lines(limit, lines);
    CutKeepsEverything(limit, lines);
    FlattenSplits(cut.closed, Gone(|cut.closed|, keep));
  }

  lemma FlattenSplits(parts: seq<Bytes>, n: nat)
    requires n <= |parts|
    ensures Flatten(parts) == Flatten(parts[..n]) + Flatten(parts[n..])
  {
    var front, back := parts[..n], parts[n..];
    assert parts == front + back;
    FlattenAppends(front, back);
  }

  /** The file ends with this line, and without it is below the limit. */
  ghost predicate EndsPast(file: Bytes, limit: nat, line: Bytes) {
    |line| <= |file| && file[|file| - |line|..] == line && |file| - |line| < limit
  }

  /** A closed file reached the limit only with its last line; the open one has not. */
  lemma {:induction false} CutAtTheLimit(limit: nat, lines: seq<Bytes>, k: nat)
    requires limit > 0
    ensures var cut := Lines(limit, lines);
            |cut.open| < limit
            && (k < |cut.closed| ==>
                  |cut.closed[k]| >= limit && exists line :: line in lines && EndsPast(cut.closed[k], limit, line))
  {
    if lines != [] {
      var last := lines[|lines| - 1];
      CutAtTheLimit(limit, lines[..|lines| - 1], k);
      var before := Lines(limit, lines[..|lines| - 1]);
      if |before.open + last| >= limit && k == |before.closed| {
        assert EndsPast(before.open + last, limit, last);
      }
      assert lines == lines[..|lines| - 1] + [last];
    }
  }

  // ----- The files of the directory

  function Content(files: Files, name: string): Option<Bytes> {
    if name in files then Some(files[name]) else None
  }

  /** The shift of a rotation: the oldest file is discarded, each numbered file that
      is there moves up by one, the base becomes number one and an empty base is made. */
  ghost predicate IsShifted(before: Files, after: Files, base: string, count: nat) {
    && Content(after, base) == Some("")
    && Content(after, RotName(base, 1)) == Content(before, base)
    && (forall i :: 1 <= i < count - 1 ==> Content(after, RotName(base, i + 1)) == Content(before, RotName(base, i)))
    && OthersStay(before, after, base, count)
  }

  /** Nothing but the base and the numbered files below count is made, changed or removed. */
  ghost predicate OthersStay(before: Files, after: Files, base: string, count: nat) {
    forall name :: name != base && !IsNumbered(base, name, count) ==> Content(after, name) == Content(before, name)
  }

  ghost predicate IsNumbered(base: string, name: string, count: nat) {
    exists i :: 1 <= i < count && name == RotName(base, i)
  }

  /** The numbered files of the sink hold the last closed files, newest first, and no others. */
  ghost predicate HoldsClosed(files: Files, base: string, count: nat, closed: seq<Bytes>) {
    forall i :: 1 <= i < count ==>
      Content(files, RotName(base, i)) == if i <= |closed| then Some(closed[|closed| - i]) else None
  }

  lemma ShiftClosed(before: Files, after: Files, base: string, count: nat, closed: seq<Bytes>, open: Bytes)
    requires count >= 2 && IsShifted(before, after, base, count)
    requires HoldsClosed(before, base, count, closed) && Content(before, base) == Some(open)
    ensures HoldsClosed(after, base, count, closed + [open])
  {
    forall i | 1 <= i < count
      ensures Content(after, RotName(base, i))
           == if i <= |closed| + 1 then Some((closed + [open])[|closed| + 1 - i]) else None
    {
      if i > 1 {
        assert Content(after, RotName(base, (i - 1) + 1)) == Content(before, RotName(base, i - 1));
      }
    }
  }

  function Renamed(files: Files, from: string, to: string): Files {
    if from in files then (files - {from})[to := files[from]] else files
  }

  /** Midway through a rotation: the numbers above i + 1 are shifted, i + 1 is free, the rest is untouched. */
  ghost predicate MidShift(before: Files, files: Files, base: string, i: nat, count: nat) {
    && RotName(base, i + 1) !in files
    && (forall j :: i < j < count - 1 ==> Content(files, RotName(base, j + 1)) == Content(before, RotName(base, j)))
    && (forall j :: 1 <= j <= i ==> Content(files, RotName(base, j)) == Content(before, RotName(base, j)))
    && (forall name :: !IsNumbered(base, name, count) ==> Content(files, name) == Content(before, name))
  }

  lemma StartShift(before: Files, base: string, count: nat)
    requires count >= 2
    ensures MidShift(before, before - {RotName(base, count - 1)}, base, count - 2, count)
  {
    forall j | 1 <= j <= count - 2 ensures RotName(base, j) != RotName(base, count - 1) {
      RotNamesDiffer(base, j, count - 1);
    }
    assert IsNumbered(base, RotName(base, count - 1), count);
  }

  lemma ShiftOne(before: Files, files: Files, base: string, i: nat, count: nat)
    requires 1 <= i <= count - 2 && MidShift(before, files, base, i, count)
    ensures MidShift(before, Renamed(files, RotName(base, i), RotName(base, i + 1)), base, i - 1, count)
  {
    var from, to := RotName(base, i), RotName(base, i + 1);
    var after := Renamed(files, from, to);
    RotNamesDiffer(base, i, i + 1);
    forall name | name != from && name != to ensures Content(after, name) == Content(files, name) {}
    forall j | i - 1 < j < count - 1 ensures Content(after, RotName(base, j + 1)) == Content(before, RotName(base, j)) {
      RotNamesDiffer(base, j + 1, i);
      RotNamesDiffer(base, j + 1, i + 1);
    }
    forall j | 1 <= j <= i - 1 ensures Content(after, RotName(base, j)) == Content(before, RotName(base, j)) {
      RotNamesDiffer(base, j, i);
      RotNamesDiffer(base, j, i + 1);
    }
    assert IsNumbered(base, from, count) && IsNumbered(base, to, count);
  }

  lemma ShiftBase(before: Files, files: Files, base: string, count: nat)
    requires count >= 2 && base in before && MidShift(before, files, base, 0, count)
    ensures base in files && base !in Renamed(files, base, RotName(base, 1))
    ensures IsShifted(before, Renamed(files, base, RotName(base, 1))[base := ""], base, count)
  {
    var first := RotName(base, 1);
    forall j ensures RotName(base, j) != base && (j != 1 ==> RotName(base, j) != first) {
      RotNamesDiffer(base, j, 1);
    }
    assert !IsNumbered(base, base, count);
    assert IsNumbered(base, first, count);
    assert Content(files, base) == Content(before, base);
  }

  class Sink {
    const count: nat          // files kept, the open one included
    const limit: nat          // size that triggers a rotation
    var files: Files          // the directory
    var path: string
    var writer: Option<Bytes> // open, with this much buffered
    var size: nat
    var enabled: bool
    ghost var clobbered: nat  // renames onto an existing file

    constructor (count: nat, limit: nat, files: Files)
      requires count >= 2 && limit > 0
      ensures this.count == count && this.limit == limit && this.files == files
      ensures path == "" && writer == None && size == 0 && !enabled && clobbered == 0
    {
      this.count, this.limit, this.files := count, limit, files;
      path, writer, size, enabled, clobbered := "", None, 0, false, 0;
    }

    ghost predicate Ready()
      reads this
    {
      count >= 2 && limit > 0 && (writer.Some? ==> path != "" && path in files)
    }

    // ----- System calls

    /** A rename of a file that is not there fails and changes nothing. */
    method Rename(from: string, to: string)
      modifies this`files, this`clobbered
      ensures files == Renamed(old(files), from, to)
      ensures clobbered == old(clobbered) + if from in old(files) && to in old(files) then 1 else 0
    {
      if from in files {
        clobbered := clobbered + if to in files then 1 else 0;
        files := (files - {from})[to := files[from]];
      }
    }

    /** opens says whether the file can be opened, sizes whether it can be measured. */
    method OpenFile(name: string, opens: bool, sizes: bool) returns (ok: bool)
      modifies this`files, this`writer, this`size
      ensures ok == opens
      ensures !ok ==> files == old(files) && writer == old(writer) && size == old(size)
      ensures ok ==> writer == Some("") && files == (if name in old(files) then old(files) else old(files)[name := ""])
      ensures ok ==> size == if sizes then |files[name]| else 0
    {
      if !opens {
        return false;
      }
      if name !in files {
        files := files[name := ""];
      }
      size := if sizes then |files[name]| else 0;
      writer := Some("");
      return true;
    }

    method Flush()
      requires Ready()
      modifies this`files, this`writer
      ensures Ready() && writer.Some? == old(writer).Some?
      ensures writer.Some? ==> writer.value == "" && files == old(files)[path := old(files)[path] + old(writer).value]
      ensures writer.None? ==> files == old(files)
    {
      if writer.Some? {
        files := files[path := files[path] + writer.value];
        writer := Some("");
      }
    }

    method CloseFile()
      requires Ready()
      modifies this`files, this`writer, this`size
      ensures Ready() && writer == None && size == 0
      ensures old(writer).Some? ==> files == old(files)[path := old(files)[path] + old(writer).value]
      ensures old(writer).None? ==> files == old(files)
    {
      Flush();
      writer := None;
      size := 0;
    }

    // ----- Rotation

    /** What the writer's file holds once its buffer is flushed. */
    ghost function Flushed(): Files
      reads this
      requires Ready() && writer.Some?
    {
      files[path := files[path] + writer.value]
    }

    /** The removal of the oldest file and the countdown of renames. */
    method Shift(base: string)
      requires count >= 2 && base in files
      modifies this`files, this`clobbered
      ensures base !in files && clobbered == old(clobbered)
      ensures IsShifted(old(files), files[base := ""], base, count)
    {
      ghost var before := files;
      files := files - {RotName(base, count - 1)};
      StartShift(before, base, count);
      var i := count - 2;
      while i >= 1
        invariant 0 <= i <= count - 2
        invariant clobbered == old(clobbered)
        invariant MidShift(before, files, base, i, count)
      {
        ShiftOne(before, files, base, i, count);
        Rename(RotName(base, i), RotName(base, i + 1));
        i := i - 1;
      }
      ShiftBase(before, files, base, count);
      Rename(base, RotName(base, 1));
    }

    /** reopens says whether the new base file can be opened; renames of existing files succeed. */
    method Rotate(reopens: bool)
      requires Ready()
      modifies this
      ensures Ready() && path == old(path) && clobbered == old(clobbered)
      ensures old(writer).None? ==> unchanged(this)
      ensures old(writer).Some? ==> size == 0
      ensures old(writer).Some? ==> IsShifted(old(Flushed()), files[path := ""], path, count)
      ensures old(writer).Some? && reopens ==> writer == Some("") && enabled == old(enabled)
      ensures old(writer).Some? && reopens ==> path in files && files[path] == ""
      ensures old(writer).Some? && !reopens ==> writer == None && path !in files && !enabled
    {
      if writer.None? {
        return;
      }
      Flush();
      writer := None;
      Shift(path);
      var ok := OpenFile(path, reopens, true);
      if ok {
        assert files[path := ""] == files;
      } else {
        enabled := false;
        size := 0;
      }
    }

    // ----- What a sink that was written these lines holds

    /** The open file, buffer included, and the numbered files are these lines, cut. */
    ghost predicate Holds(lines: seq<Bytes>)
      reads this
    {
      && Ready() && writer.Some?
      && files[path] + writer.value == Lines(limit, lines).open && size == |Lines(limit, lines).open|
      && HoldsClosed(files, path, count, Lines(limit, lines).closed)
    }

    /** The same of a sink that is closed. */
    ghost predicate Rests(lines: seq<Bytes>)
      reads this
    {
      Ready() && writer.None? && path != "" && FilesRest(files, path, count, limit, lines)
    }

    /** The writer takes the line; its buffer passes up to spill bytes on to the file. */
    method Append(line: Bytes, spill: nat)
      requires Ready() && writer.Some?
      modifies this`files, this`writer, this`size
      ensures Ready() && writer.Some? && size == old(size) + |line|
      ensures files[path] + writer.value == old(files[path] + writer.value) + line
      ensures files == old(files)[path := files[path]]
    {
      var text := writer.value + line;
      var n := if spill < |text| then spill else |text|;
      assert (files[path] + text[..n]) + text[n..] == files[path] + text;
      assert files[path] + text == files[path] + writer.value + line;
      files := files[path := files[path] + text[..n]];
      writer := Some(text[n..]);
      size := size + |line|;
    }

    /** The writer fails after passing on up to kept bytes: the sink closes and is disabled. */
    method Fail(line: Bytes, kept: nat)
      requires Ready() && writer.Some?
      modifies this
      ensures Ready() && writer == None && size == 0 && !enabled && path == old(path) && clobbered == old(clobbered)
      ensures path in files && files == old(files)[path := files[path]]
      ensures old(files[path]) <= files[path] <= old(files[path] + writer.value) + line
    {
      var text := writer.value + line;
      var n := if kept < |text| then kept else |text|;
      assert files[path] + text == files[path] + writer.value + line;
      files := files[path := files[path] + text[..n]];
      writer := None;
      size := 0;
      enabled := false;
    }

    /** ok says whether the writer takes the line. */
    method Write(line: Bytes, ok: bool, spill: nat, kept: nat, reopens: bool, ghost lines: seq<Bytes>)
      requires Ready()
      modifies this
      ensures Ready() && path == old(path) && clobbered == old(clobbered)
      ensures OthersStay(old(files), files, path, count)
      ensures old(writer).None? ==> unchanged(this)
      ensures old(writer).Some? && !ok ==> writer == None && size == 0 && !enabled
      ensures old(writer).Some? && !ok ==> path in files && files == old(files)[path := files[path]]
      ensures old(writer).Some? && !ok ==> old(files[path]) <= files[path] <= old(files[path] + writer.value) + line
      ensures old(writer).Some? && ok && old(size) + |line| < limit ==>
        writer.Some? && size == old(size) + |line| && enabled == old(enabled)
      ensures old(writer).Some? && ok && old(size) + |line| < limit ==>
        Flushed() == old(Flushed())[path := old(Flushed()[path]) + line]
      ensures old(writer).Some? && ok && old(size) + |line| >= limit ==>
        IsShifted(old(Flushed())[path := old(Flushed()[path]) + line], files[path := ""], path, count)
      ensures old(writer).Some? && ok && old(size) + |line| >= limit ==>
        size == 0 && enabled == (old(enabled) && reopens) && (writer.Some? <==> reopens)
      ensures old(writer).Some? && ok && old(size) + |line| >= limit && reopens ==> Flushed()[path] == ""
      ensures old(Holds(lines)) && ok && (reopens || old(size) + |line| < limit) ==> Holds(lines + [line])
    {
      if writer.None? {
        return;
      }
      if !ok {
        Fail(line, kept);
        return;
      }
      Append(line, spill);
      ghost var full := Flushed();
      assert full == old(Flushed())[path := old(Flushed()[path]) + line];
      assert (lines + [line])[..|lines|] == lines;
      if old(Holds(lines)) {
        NumberedStay(old(files), files, path, count, Lines(limit, lines).closed);
        NumberedStay(old(files), full, path, count, Lines(limit, lines).closed);
      }
      if size >= limit {
        Rotate(reopens);
        if old(Holds(lines)) && reopens {
          assert files[path := ""] == files;
          ShiftClosed(full, files, path, count, Lines(limit, lines).closed, full[path]);
        }
      }
    }

    /** An event reaches the file if the sink is enabled and its level passes. */
    method Route(line: Bytes, passes: bool, ok: bool, spill: nat, kept: nat, reopens: bool, ghost lines: seq<Bytes>)
      requires Ready()
      modifies this
      ensures Ready() && path == old(path) && clobbered == old(clobbered)
      ensures OthersStay(old(files), files, path, count)
      ensures !old(enabled) || !passes ==> unchanged(this)
      ensures old(enabled) && passes && old(Holds(lines)) && ok && (reopens || old(size) + |line| < limit) ==>
        Holds(lines + [line]) && enabled
      ensures old(enabled) && passes && old(writer).Some? && !ok ==> writer == None && !enabled
    {
      if enabled && passes {
        Write(line, ok, spill, kept, reopens, lines);
      }
    }

    /** The files at another path are these lines, cut, and the open file is none of them. */
    ghost predicate RestAt(name: string, lines: seq<Bytes>)
      reads this
    {
      FilesRest(files, name, count, limit, lines) && (writer.None? || !IsNumbered(name, path, count))
    }

    /** The directory once the sink is closed. */
    ghost function Closed(): Files
      reads this
      requires Ready()
    {
      if writer.Some? then Flushed() else files
    }

    /** makes, opens, sizes: whether the directory can be made, the file opened and measured. */
    method SetPath(name: string, makes: bool, opens: bool, sizes: bool, ghost lines: seq<Bytes>) returns (ok: bool)
      requires Ready()
      modifies this
      ensures Ready() && enabled == old(enabled) && clobbered == old(clobbered)
      ensures ok <==> name == old(path) || name == "" || (makes && opens)
      ensures path == if ok then name else old(path)
      // Success means that the sink is open on the new path, except for a path that was
      // set already: then nothing happens, and a sink closed by a failure stays closed.
      ensures ok ==> (writer.Some? <==> name != "" && (name != old(path) || old(writer).Some?))
      ensures !ok ==> writer == None
      ensures name == old(path) ==> unchanged(this)
      ensures forall n :: n != name && n != old(path) ==> Content(files, n) == Content(old(files), n)
      // The old file ends with what was buffered, and the new one goes on from what it held.
      ensures name != old(path) && old(writer).Some? ==>
        Content(files, old(path)) == Some(old(files[path] + writer.value))
      ensures !ok || name == "" ==> name == old(path) || files == old(Closed())
      ensures ok && name != "" && name != old(path) ==>
        writer == Some("") && files == (if name in old(files) then old(Closed()) else old(Closed())[name := ""])
      ensures ok && name != "" && name != old(path) ==>
        Content(files, name) == Some(Content(old(files), name).GetOr(""))
      ensures ok && name != "" && name != old(path) ==>
        size == if sizes then |Content(old(files), name).GetOr("")| else 0
      ensures ok && name != "" && name != old(path) && sizes && Clean(old(files), name, count) ==> Holds([])
      ensures ok && name != "" && name != old(path) && sizes && old(RestAt(name, lines)) ==> Holds(lines)
    {
      if path == name {
        return true;
      }
      CloseFile();
      if name == "" {
        path := "";
        return true;
      }
      if !makes {
        return false;
      }
      ghost var closed := files;
      ok := OpenFile(name, opens, sizes);
      if !ok {
        return false;
      }
      path := name;
      if Clean(old(files), name, count) {
        assert Clean(closed, name, count);
        NumberedStay(closed, files, name, count, []);
      }
      if old(RestAt(name, lines)) {
        forall i | 1 <= i < count ensures Content(files, RotName(name, i)) == Content(old(files), RotName(name, i)) {
          RotNamesDiffer(name, i, i);
          assert IsNumbered(name, RotName(name, i), count);
        }
      }
    }

    method SetEnabled(on: bool, opens: bool, sizes: bool, ghost lines: seq<Bytes>)
      requires Ready()
      modifies this
      ensures Ready() && enabled == on && path == old(path) && clobbered == old(clobbered)
      ensures writer.Some? <==> old(writer).Some? || (on && path != "" && opens)
      ensures old(writer).Some? && on ==> files == old(files) && writer == old(writer) && size == old(size)
      ensures old(writer).None? ==>
        files == if on && path != "" && opens && path !in old(files) then old(files)[path := ""] else old(files)
      ensures old(writer).None? && writer.Some? ==> writer == Some("") && size == if sizes then |files[path]| else 0
      ensures old(writer).Some? && !on ==> files == old(Flushed()) && writer == Some("") && size == old(size)
      ensures old(Holds(lines)) ==> Holds(lines)
      ensures old(Rests(lines)) ==> if on && opens && sizes then Holds(lines) else (on && opens) || Rests(lines)
    {
      if !on {
        enabled := false;
        Flush();
        if old(Holds(lines)) {
          NumberedStay(old(files), files, path, count, Lines(limit, lines).closed);
        }
        return;
      }
      if writer.None? && path != "" {
        var ok := OpenFile(path, opens, sizes);
        if old(Rests(lines)) {
          NumberedStay(old(files), files, path, count, Lines(limit, lines).closed);
        }
      }
      enabled := true;
    }
  }

  /** The files at this path are these lines, cut, with no sink open on them. */
  ghost predicate FilesRest(files: Files, base: string, count: nat, limit: nat, lines: seq<Bytes>) {
    && Content(files, base) == Some(Lines(limit, lines).open)
    && HoldsClosed(files, base, count, Lines(limit, lines).closed)
  }

  /** No file of a sink at this path exists yet. */
  ghost predicate Clean(files: Files, base: string, count: nat) {
    base !in files && forall i :: 1 <= i < count ==> RotName(base, i) !in files
  }

  /** A change of the base file leaves the numbered ones alone. */
  lemma NumberedStay(before: Files, after: Files, base: string, count: nat, closed: seq<Bytes>)
    requires forall name :: name != base ==> Content(after, name) == Content(before, name)
    ensures HoldsClosed(before, base, count, closed) ==> HoldsClosed(after, base, count, closed)
  {
    forall i: nat ensures RotName(base, i) != base {
      RotNamesDiffer(base, i, i);
    }
  }

  // ----- Runs of writes

  /** A line, with how much of the buffer it spills, or a tick that flushes. */
  datatype Op = Line(line: Bytes, spill: nat) | Tick

  ghost function Written(ops: seq<Op>): seq<Bytes> {
    if ops == [] then [] else
    var last := ops[|ops| - 1];
    Written(ops[..|ops| - 1]) + if last.Line? then [last.line] else []
  }

  /** Any run of successful writes and flushes leaves the lines, after those held, cut
      into at most count files, has never renamed onto an existing file, and has neither
      made nor touched any other file. */
  method WriteAll(sink: Sink, ops: seq<Op>, ghost held: seq<Bytes>)
    requires sink.Holds(held)
    modifies sink
    ensures sink.Holds(held + Written(ops)) && sink.path == old(sink.path) && sink.clobbered == old(sink.clobbered)
    ensures OthersStay(old(sink.files), sink.files, sink.path, sink.count)
    ensures |SinkFiles(sink.files, sink.path, sink.count)| <= sink.count
    ensures sink.files.Keys - SinkFiles(sink.files, sink.path, sink.count)
         == old(sink.files.Keys - SinkFiles(sink.files, sink.path, sink.count))
  {
    assert held + Written(ops[..0]) == held;
    for i := 0 to |ops|
      invariant sink.Holds(held + Written(ops[..i]))
      invariant sink.path == old(sink.path) && sink.clobbered == old(sink.clobbered)
      invariant OthersStay(old(sink.files), sink.files, sink.path, sink.count)
    {
      assert ops[..i + 1][..i] == ops[..i];
      match ops[i]
      case Line(line, spill) =>
        sink.Write(line, true, spill, 0, true, held + Written(ops[..i]));
        assert held + Written(ops[..i + 1]) == held + Written(ops[..i]) + [line];
      case Tick =>
        ghost var before := sink.files;
        sink.Flush();
        NumberedStay(before, sink.files, sink.path, sink.count, Lines(sink.limit, held + Written(ops[..i])).closed);
        assert Written(ops[..i + 1]) == Written(ops[..i]);
    }
    assert ops[..|ops|] == ops;
    FilesHeld(sink, held + Written(ops));
    OthersWereThere(old(sink.files), sink.files, sink.path, sink.count);
  }

  /** A restart goes on where the files left off: a new sink on the path of files that
      are these lines, cut, and any run of writes, leave the files these lines and the new ones, cut. */
  method WriteAfterRestart(count: nat, limit: nat, files: Files, name: string, ghost lines: seq<Bytes>, ops: seq<Op>)
    returns (sink: Sink)
    requires count >= 2 && limit > 0 && name != "" && FilesRest(files, name, count, limit, lines)
    ensures fresh(sink) && sink.count == count && sink.limit == limit && sink.path == name
    ensures sink.Holds(lines + Written(ops)) && OthersStay(files, sink.files, name, count)
  {
    sink := new Sink(count, limit, files);
    var ok := sink.SetPath(name, true, true, true, lines);
    assert sink.files == files;
    WriteAll(sink, ops, lines);
  }

  /** A numbered file of a sink is the i-th newest closed one, cut at the limit by its
      last line; beyond the closed files there is none. */
  lemma RetainedFile(sink: Sink, lines: seq<Bytes>, i: nat)
    requires sink.Holds(lines) && 1 <= i < sink.count
    ensures var closed := Lines(sink.limit, lines).closed;
            if i > |closed| then RotName(sink.path, i) !in sink.files
            else RotName(sink.path, i) in sink.files
                 && sink.files[RotName(sink.path, i)] == closed[|closed| - i]
                 && sink.limit <= |closed[|closed| - i]|
                 && exists line :: line in lines && EndsPast(closed[|closed| - i], sink.limit, line)
  {
    var closed := Lines(sink.limit, lines).closed;
    assert Content(sink.files, RotName(sink.path, i)) == if i <= |closed| then Some(closed[|closed| - i]) else None;
    if i <= |closed| {
      CutAtTheLimit(sink.limit, lines, |closed| - i);
    }
  }

  // ----- How many files there are

  /** The files of a directory that belong to the sink at this path. */
  ghost function SinkFiles(files: Files, base: string, count: nat): set<string> {
    set name | name in files && (name == base || IsNumbered(base, name, count))
  }

  /** The base file and the first n numbers. */
  ghost function Names(base: string, n: nat): set<string> {
    if n == 0 then {base} else Names(base, n - 1) + {RotName(base, n)}
  }

  lemma {:induction false} NamesCounted(base: string, n: nat)
    ensures |Names(base, n)| == n + 1
    ensures forall name :: name in Names(base, n) <==> name == base || IsNumbered(base, name, n + 1)
  {
    if n > 0 {
      NamesCounted(base, n - 1);
      NotNumberedYet(base, n);
      forall name ensures IsNumbered(base, name, n + 1) <==> IsNumbered(base, name, n) || name == RotName(base, n) {
        if name == RotName(base, n) {
          assert IsNumbered(base, name, n + 1);
        }
      }
    }
  }

  lemma NotNumberedYet(base: string, n: nat)
    ensures RotName(base, n) != base && !IsNumbered(base, RotName(base, n), n)
  {
    RotNamesDiffer(base, n, n);
    forall i | 1 <= i < n ensures RotName(base, i) != RotName(base, n) {
      RotNamesDiffer(base, i, n);
    }
  }

  /** The numbered files that are there are those of the retained closed files. */
  lemma NumberedHeld(files: Files, base: string, count: nat, closed: seq<Bytes>, n: nat, name: string)
    requires HoldsClosed(files, base, count, closed) && n == if |closed| < count then |closed| else count - 1
    requires count >= 1
    ensures name in files && IsNumbered(base, name, count) <==> IsNumbered(base, name, n + 1)
  {
    if i :| 1 <= i < count && name == RotName(base, i) {
      assert Content(files, RotName(base, i)) == if i <= |closed| then Some(closed[|closed| - i]) else None;
      if j :| 1 <= j < n + 1 && name == RotName(base, j) {
        RotNamesDiffer(base, i, j);
      }
    }
  }

  /** A sink that holds these lines has its open file and one file for each closed one
      that it keeps: at most count files. */
  lemma FilesHeld(sink: Sink, lines: seq<Bytes>)
    requires sink.Holds(lines)
    ensures var closed := |Lines(sink.limit, lines).closed|;
            |SinkFiles(sink.files, sink.path, sink.count)|
            == 1 + (if closed < sink.count then closed else sink.count - 1) <= sink.count
  {
    var closed := Lines(sink.limit, lines).closed;
    var n := if |closed| < sink.count then |closed| else sink.count - 1;
    NamesCounted(sink.path, n);
    forall name
      ensures name in sink.files && IsNumbered(sink.path, name, sink.count) <==> IsNumbered(sink.path, name, n + 1)
    {
      NumberedHeld(sink.files, sink.path, sink.count, closed, n, name);
    }
    assert SinkFiles(sink.files, sink.path, sink.count) == Names(sink.path, n);
  }

  /** Where the others stay, every file that is not the sink's was there before, and none is gone. */
  lemma OthersWereThere(before: Files, after: Files, base: string, count: nat)
    requires OthersStay(before, after, base, count)
    ensures after.Keys - SinkFiles(after, base, count) == before.Keys - SinkFiles(before, base, count)
    ensures forall name :: name in after && name !in SinkFiles(after, base, count)
                           ==> name in before && after[name] == before[name]
  {
    forall name | name != base && !IsNumbered(base, name, count)
      ensures (name in after <==> name in before) && (name in after ==> after[name] == before[name])
    {
      assert Content(after, name) == Content(before, name);
    }
  }

  /** Setting the path of a sink whose write has failed reports success and leaves it closed. */
  method SuccessOnAClosedSink(count: nat, limit: nat, files: Files, name: string, line: Bytes)
    returns (sink: Sink, first: bool, again: bool)
    requires count >= 2 && limit > 0 && name != ""
    ensures fresh(sink) && first && again && sink.path == name && sink.writer == None
  {
    sink := new Sink(count, limit, files);
    first := sink.SetPath(name, true, true, true, []);
    assert sink.writer.Some?;
    sink.Write(line, false, 0, 0, true, []);
    again := sink.SetPath(name, true, true, true, []);
  }

  /** The content of the numbered files from number i down, oldest first. */
  ghost function NumberedContent(files: Files, base: string, i: nat): Bytes {
    if i == 0 then "" else Content(files, RotName(base, i)).GetOr("") + NumberedContent(files, base, i - 1)
  }

  lemma FlattenFirst(parts: seq<Bytes>, k: nat)
    requires k < |parts|
    ensures Flatten(parts[k..]) == parts[k] + Flatten(parts[k + 1..])
  {
    assert parts[k..] == [parts[k]] + parts[k + 1..];
    FlattenAppends([parts[k]], parts[k + 1..]);
    assert Flatten([parts[k]][..0]) == "";
  }

  lemma LastGrows(closed: seq<Bytes>, i: nat)
    requires i > 0
    ensures Flatten(Last(closed, i))
         == (if i <= |closed| then closed[|closed| - i] else "") + Flatten(Last(closed, i - 1))
  {
    if i <= |closed| {
      FlattenFirst(closed, |closed| - i);
    } else {
      assert Last(closed, i - 1) == closed;
    }
  }

  lemma {:induction false} NumberedContentIsClosed(files: Files, base: string, count: nat, closed: seq<Bytes>, i: nat)
    requires HoldsClosed(files, base, count, closed) && i < count
    ensures NumberedContent(files, base, i) == Flatten(Last(closed, i))
  {
    if i > 0 {
      NumberedContentIsClosed(files, base, count, closed, i - 1);
      assert Content(files, RotName(base, i)) == if i <= |closed| then Some(closed[|closed| - i]) else None;
      LastGrows(closed, i);
    }
  }

  /** Reading the files from the oldest numbered one to the open one and its buffer
      gives the end of everything written; what is missing was cut off between files. */
  lemma FilesAreSuffix(sink: Sink, lines: seq<Bytes>)
    requires sink.Holds(lines)
    ensures var cut := Lines(sink.limit, lines);
            Flatten(lines) == Flatten(cut.closed[..Gone(|cut.closed|, sink.count - 1)])
                              + (NumberedContent(sink.files, sink.path, sink.count - 1)
                                 + (sink.files[sink.path] + sink.writer.value))
  {
    NumberedContentIsClosed(sink.files, sink.path, sink.count, Lines(sink.limit, lines).closed, sink.count - 1);
    RetainedIsSuffix(sink.limit, lines, sink.count - 1);
  }
}
