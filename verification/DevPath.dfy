/**
 Looking up a block device by its serial in the output of a grep over the serial files under /sys/block, and the
 proof that the line parser undoes the printing of that listing.
 */
module DevPath {
  import opened Status

  // ---------- strings.Split ----------

  function Split(s: string, sep: char): (parts: seq<string>)
    ensures |parts| >= 1
  {
    if s == "" then [""]
    else
      var rest := Split(s[1..], sep);
      if s[0] == sep then [""] + rest else [[s[0]] + rest[0]] + rest[1..]
  }

  lemma {:induction false} SplitSolid(s: string, sep: char)
    requires sep !in s
    ensures Split(s, sep) == [s]
  {
    if s == "" {
    } else {
      SplitSolid(s[1..], sep);
      assert s == [s[0]] + s[1..];
    }
  }

  // A solid piece in front of a separator is split off.
  lemma {:induction false} SplitFirst(head: string, sep: char, tail: string)
    requires sep !in head
    ensures Split(head + [sep] + tail, sep) == [head] + Split(tail, sep)
  {
    var s := head + [sep] + tail;
    if head == "" {
      assert s[1..] == tail;
    } else {
      SplitFirst(head[1..], sep, tail);
      assert s[1..] == head[1..] + [sep] + tail;
      assert head == [head[0]] + head[1..];
    }
  }

  // ---------- the search ----------

  datatype Verdict = Path(path: string) | Malformed | Unlisted

  // One line: skipped, or the answer.
  function ReadLine(line: string, serial: string): Option<Verdict> {
    var kv := Split(line, ':');
    if line == "" || |kv| != 2 || kv[1] != serial then None
    else
      var strs := Split(kv[0], '/');
      if |strs| != 5 then Some(Malformed) else Some(Path("/dev/" + strs[3]))
  }

  function Search(lines: seq<string>, serial: string): Verdict {
    if lines == [] then Unlisted
    else if ReadLine(lines[0], serial).Some? then ReadLine(lines[0], serial).value
    else Search(lines[1..], serial)
  }

  lemma {:induction false} SearchSkips(lines: seq<string>, serial: string, i: nat)
    requires i <= |lines| && forall k | 0 <= k < i :: ReadLine(lines[k], serial).None?
    ensures Search(lines, serial) == Search(lines[i..], serial)
  {
    if i > 0 {
      SearchSkips(lines[1..], serial, i - 1);
      assert lines[1..][i - 1..] == lines[i..];
    } else {
      assert lines[0..] == lines;
    }
  }

  // What the lookup answers; `output` is what the command printed, or None when it could not be run.
  function DeviceOf(output: Option<string>, serial: string): Outcome<string> {
    if serial == "" || output.None? then Error(Internal)
    else
      var verdict := Search(Split(output.value, '\n'), serial);
      if verdict.Path? then Done(verdict.path) else Error(Internal)
  }

  // ---------- the listing ----------

  // What the command prints: one line for each device, and possibly serials of other files, and lines of
  // other shapes.
  datatype Entry = Device(dev: string, serial: string) | Other(file: string, serial: string) | Noise(line: string)

  predicate WellFormed(entry: Entry) {
    match entry
    case Device(dev, serial) =>
      && '/' !in dev && ':' !in dev && '\n' !in dev
      && ':' !in serial && '\n' !in serial
    case Other(file, serial) =>
      && ':' !in file && '\n' !in file && |Split(file, '/')| != 5
      && ':' !in serial && '\n' !in serial
    case Noise(line) => '\n' !in line && |Split(line, ':')| != 2
  }

  const PREFIX: string := "/sys/block/"
  const SUFFIX: string := "/serial"

  function Line(entry: Entry): string {
    match entry
    case Device(dev, serial) => PREFIX + dev + SUFFIX + ":" + serial
    case Other(file, serial) => file + ":" + serial
    case Noise(line) => line
  }

  function Print(entries: seq<Entry>): string {
    if entries == [] then "" else Line(entries[0]) + "\n" + Print(entries[1..])
  }

  function Lines(entries: seq<Entry>): seq<string> {
    if entries == [] then [""] else [Line(entries[0])] + Lines(entries[1..])
  }

  lemma KeySolid(dev: string)
    ensures ':' !in dev ==> ':' !in PREFIX + dev + SUFFIX
    ensures '\n' !in dev ==> '\n' !in PREFIX + dev + SUFFIX
  {
    assert forall c | c in PREFIX + dev + SUFFIX :: c in PREFIX || c in dev || c in SUFFIX;
  }

  lemma LineSolid(entry: Entry)
    requires WellFormed(entry)
    ensures '\n' !in Line(entry)
  {
    if entry.Device? {
      KeySolid(entry.dev);
    }
  }

  lemma {:induction false} SplitPrint(entries: seq<Entry>)
    requires forall e | e in entries :: WellFormed(e)
    ensures Split(Print(entries), '\n') == Lines(entries)
  {
    if entries == [] {
    } else {
      SplitPrint(entries[1..]);
      LineSolid(entries[0]);
      SplitFirst(Line(entries[0]), '\n', Print(entries[1..]));
    }
  }

  lemma SplitFive(a: string, b: string, c: string, d: string, e: string, sep: char)
    requires sep !in a && sep !in b && sep !in c && sep !in d && sep !in e
    ensures Split(a + [sep] + (b + [sep] + (c + [sep] + (d + [sep] + e))), sep) == [a, b, c, d, e]
  {
    SplitFirst(a, sep, b + [sep] + (c + [sep] + (d + [sep] + e)));
    SplitFirst(b, sep, c + [sep] + (d + [sep] + e));
    SplitFirst(c, sep, d + [sep] + e);
    SplitFirst(d, sep, e);
    SplitSolid(e, sep);
  }

  lemma Regroup(a: string, b: string, c: string, d: string, e: string, slash: string)
    ensures a + slash + (b + slash + (c + slash + (d + slash + e)))
         == (a + slash + b + slash + c + slash) + d + (slash + e)
  {}

  lemma SplitKey(dev: string)
    requires '/' !in dev
    ensures Split(PREFIX + dev + SUFFIX, '/') == ["", "sys", "block", dev, "serial"]
  {
    SplitFive("", "sys", "block", dev, "serial", '/');
    Regroup("", "sys", "block", dev, "serial", ['/']);
    assert PREFIX == "" + ['/'] + "sys" + ['/'] + "block" + ['/'];
    assert SUFFIX == ['/'] + "serial";
  }

  lemma ReadDevice(dev: string, serial: string, wanted: string)
    requires WellFormed(Device(dev, serial))
    ensures ReadLine(Line(Device(dev, serial)), wanted) == if wanted == serial then Some(Path("/dev/" + dev)) else None
  {
    var key := PREFIX + dev + SUFFIX;
    KeySolid(dev);
    SplitFirst(key, ':', serial);
    SplitSolid(serial, ':');
    SplitKey(dev);
  }

  lemma ReadOther(file: string, serial: string, wanted: string)
    requires WellFormed(Other(file, serial))
    ensures ReadLine(Line(Other(file, serial)), wanted) == if wanted == serial then Some(Malformed) else None
  {
    assert Line(Other(file, serial)) == file + [':'] + serial;
    SplitFirst(file, ':', serial);
    SplitSolid(serial, ':');
  }

  predicate Carries(entry: Entry, serial: string) {
    !entry.Noise? && entry.serial == serial
  }

  // What the search stops at: the first entry with the serial, which need not be a device's.
  function FirstWith(entries: seq<Entry>, serial: string): Verdict {
    if entries == [] then Unlisted
    else if !Carries(entries[0], serial) then FirstWith(entries[1..], serial)
    else if entries[0].Device? then Path("/dev/" + entries[0].dev)
    else Malformed
  }

  lemma {:induction false} SearchPrinted(entries: seq<Entry>, serial: string)
    requires forall e | e in entries :: WellFormed(e)
    ensures Search(Lines(entries), serial) == FirstWith(entries, serial)
  {
    if entries == [] {
      assert Search([""], serial) == Search([""][1..], serial);
    } else {
      SearchPrinted(entries[1..], serial);
      var e := entries[0];
      assert WellFormed(e);
      if e.Device? {
        ReadDevice(e.dev, e.serial, serial);
      } else if e.Other? {
        ReadOther(e.file, e.serial, serial);
      }
      assert Lines(entries)[0] == Line(e) && Lines(entries)[1..] == Lines(entries[1..]);
    }
  }

  // Entry j is the first that carries the serial.
  predicate FirstAt(entries: seq<Entry>, serial: string, j: int) {
    0 <= j < |entries| && Carries(entries[j], serial) && forall i | 0 <= i < j :: !Carries(entries[i], serial)
  }

  lemma {:induction false} FirstWithMeans(entries: seq<Entry>, serial: string) returns (j: int)
    ensures if FirstWith(entries, serial) == Unlisted then forall e | e in entries :: !Carries(e, serial)
            else FirstAt(entries, serial, j)
                 && FirstWith(entries, serial)
                    == if entries[j].Device? then Path("/dev/" + entries[j].dev) else Malformed
  {
    if entries == [] {
      j := 0;
    } else if Carries(entries[0], serial) {
      j := 0;
    } else {
      j := FirstWithMeans(entries[1..], serial);
      j := j + 1;
      assert forall i | 1 <= i < |entries| :: entries[i] == entries[1..][i - 1];
    }
  }

  // The lookup on whatever the command printed: it answers with a device exactly when the first entry with
  // the serial is that device's, and with an error exactly when there is no such entry or it is another
  // file's.
  lemma LookUpFindsFirst(entries: seq<Entry>, serial: string)
    requires serial != "" && forall e | e in entries :: WellFormed(e)
    ensures forall dev :: DeviceOf(Some(Print(entries)), serial) == Done("/dev/" + dev) <==>
                            exists j :: FirstAt(entries, serial, j) && entries[j] == Device(dev, serial)
    ensures DeviceOf(Some(Print(entries)), serial) == Error(Internal) <==>
              forall j | FirstAt(entries, serial, j) :: !entries[j].Device?
  {
    SplitPrint(entries);
    SearchPrinted(entries, serial);
    var k := FirstWithMeans(entries, serial);
    assert forall j | FirstAt(entries, serial, j) && FirstAt(entries, serial, k) :: j == k;
    forall dev | DeviceOf(Some(Print(entries)), serial) == Done("/dev/" + dev)
      ensures FirstAt(entries, serial, k) && entries[k] == Device(dev, serial)
    {
      assert dev == ("/dev/" + dev)[5..] == ("/dev/" + entries[k].dev)[5..] == entries[k].dev;
    }
    if j :| FirstAt(entries, serial, j) {
      assert entries[j] in entries;
    }
  }

  // A listing in which no serial appears twice.
  predicate Listing(entries: seq<Entry>) {
    && (forall e | e in entries :: WellFormed(e))
    && (forall i, j | 0 <= i < j < |entries| && !entries[i].Noise? :: !Carries(entries[j], entries[i].serial))
  }

  // Parsing inverts printing: where no serial appears twice, a serial is found at a device exactly when
  // the device has it, and is an error exactly when no device has it, whatever other lines the command
  // printed in between.
  lemma ParseInvertsPrint(entries: seq<Entry>, serial: string)
    requires serial != "" && Listing(entries)
    ensures forall dev :: DeviceOf(Some(Print(entries)), serial) == Done("/dev/" + dev) <==>
                            Device(dev, serial) in entries
    ensures DeviceOf(Some(Print(entries)), serial) == Error(Internal) <==>
              forall dev :: Device(dev, serial) !in entries
  {
    LookUpFindsFirst(entries, serial);
    forall dev | Device(dev, serial) in entries
      ensures exists j :: FirstAt(entries, serial, j) && entries[j] == Device(dev, serial)
    {
      var j :| 0 <= j < |entries| && entries[j] == Device(dev, serial);
      assert FirstAt(entries, serial, j);
    }
    forall j | FirstAt(entries, serial, j) && entries[j].Device? ensures Device(entries[j].dev, serial) in entries {
      assert entries[j] in entries;
    }
  }

  // ---------- the lookup as the program runs it ----------

  method GetDevPath(output: Option<string>, serial: string) returns (result: Outcome<string>)
    ensures result == DeviceOf(output, serial)
    ensures serial == "" || output.None? ==> result == Error(Internal)
    ensures forall entries | serial != "" && output == Some(Print(entries)) && Listing(entries) ::
              && (forall dev :: result == Done("/dev/" + dev) <==> Device(dev, serial) in entries)
              && (result == Error(Internal) <==> forall dev :: Device(dev, serial) !in entries)
  {
    forall entries | serial != "" && output == Some(Print(entries)) && Listing(entries)
      ensures forall dev :: DeviceOf(output, serial) == Done("/dev/" + dev) <==> Device(dev, serial) in entries
      ensures DeviceOf(output, serial) == Error(Internal) <==> forall dev :: Device(dev, serial) !in entries
    {
      ParseInvertsPrint(entries, serial);
    }
    if serial == "" {
      return Error(Internal);
    }
    if output.None? {
      return Error(Internal);
    }
    var devices := Split(output.value, '\n');
    for i := 0 to |devices|
      invariant forall k | 0 <= k < i :: ReadLine(devices[k], serial).None?
    {
      var dev := devices[i];
      SearchSkips(devices, serial, i);
      if |dev| == 0 {
        continue;
      }
      var kv := Split(dev, ':');
      if |kv| != 2 {
        continue;
      }
      if kv[1] == serial {
        var strs := Split(kv[0], '/');
        if |strs| != 5 {
          return Error(Internal);
        }
        return Done("/dev/" + strs[3]);
      }
    }
    SearchSkips(devices, serial, |devices|);
    return Error(Internal);
  }
}
