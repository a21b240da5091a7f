/**
 A host's paths and mount table, with the small contracts of the file system and mount calls that the
 node servers rely on.  A path is the sequence of its components; the empty sequence stands for the
 empty string of a request.
 */
module MountTable {

  type Path = seq<string>

  // One line of the mount table, oldest first.  `node` is the device node that is bound to a file, and
  // empty where a file system is mounted on a directory.
  datatype Entry = Entry(device: string, path: Path, node: string := "")

  datatype Host = Host(paths: set<Path>, table: seq<Entry>)

  // ---------- paths ----------

  function Prefixes(p: Path): set<Path> {
    set i | 0 <= i <= |p| :: p[..i]
  }

  function Dir(p: Path): Path {
    if p == [] then [] else p[..|p| - 1]
  }

  // p is q or lies above it.
  predicate IsPrefix(p: Path, q: Path) {
    p <= q
  }

  // os.MkdirAll
  function MkdirAll(h: Host, p: Path): Host {
    h.(paths := h.paths + Prefixes(p))
  }

  // A path that nothing lies below.
  predicate Leaf(h: Host, p: Path) {
    forall q | q in h.paths && IsPrefix(p, q) :: q == p
  }

  // ---------- the mount table ----------

  // The entries at one path, oldest first: the stack of mounts there.
  function At(table: seq<Entry>, p: Path): seq<Entry> {
    if table == [] then []
    else
      var last := table[|table| - 1];
      At(table[..|table| - 1], p) + (if last.path == p then [last] else [])
  }

  // The table without the entries at some paths.
  function Without(table: seq<Entry>, ps: set<Path>): seq<Entry> {
    if table == [] then []
    else
      var last := table[|table| - 1];
      Without(table[..|table| - 1], ps) + (if last.path in ps then [] else [last])
  }

  // GetDeviceNameFromMount reports the device of the first entry at a path, or the empty string, and
  // how many entries of the whole table have that device.
  function DeviceAt(table: seq<Entry>, p: Path): string {
    if At(table, p) == [] then "" else At(table, p)[0].device
  }

  function References(table: seq<Entry>, device: string): nat {
    if table == [] then 0
    else (if table[|table| - 1].device == device then 1 else 0) + References(table[..|table| - 1], device)
  }

  // Unmounting takes the newest mount off a path.
  function Pop(table: seq<Entry>, p: Path): seq<Entry> {
    if table == [] then []
    else
      var last := table[|table| - 1];
      if last.path == p then table[..|table| - 1] else Pop(table[..|table| - 1], p) + [last]
  }

  // os.Remove fails on a path that is missing, mounted, or not empty.
  predicate CanRemove(h: Host, p: Path) {
    p in h.paths && At(h.table, p) == [] && Leaf(h, p)
  }

  // What lies below a path, as the table will show it when the path is bound elsewhere.
  const ROOT_DEVICE: string := "rootfs"

  function DeviceUnder(table: seq<Entry>, p: Path): string {
    var stack := At(table, p);
    if stack == [] then ROOT_DEVICE else stack[|stack| - 1].device
  }

  // Mounted paths exist, entries name a device, and directories have their parents.
  ghost predicate Sound(h: Host) {
    && (forall e | e in h.table :: e.path in h.paths && e.device != "")
    && (forall p, q | p in h.paths && IsPrefix(q, p) :: q in h.paths)
  }

  // ---------- lemmas ----------

  lemma PrefixesMean(p: Path, q: Path)
    ensures q in Prefixes(p) <==> IsPrefix(q, p)
    ensures p in Prefixes(p)
  {
    if q <= p {
      assert q == p[..|q|];
    }
    assert p == p[..|p|];
  }

  lemma PrefixesAll(p: Path)
    ensures forall q :: q in Prefixes(p) <==> IsPrefix(q, p)
  {
    forall q ensures q in Prefixes(p) <==> IsPrefix(q, p) {
      PrefixesMean(p, q);
    }
  }

  lemma {:induction false} AtMember(table: seq<Entry>, p: Path)
    ensures forall e | e in At(table, p) :: e in table && e.path == p
    ensures (exists e :: e in table && e.path == p) ==> At(table, p) != []
  {
    if table == [] {
    } else {
      AtMember(table[..|table| - 1], p);
      assert table == table[..|table| - 1] + [table[|table| - 1]];
    }
  }

  lemma AtPush(table: seq<Entry>, e: Entry, p: Path)
    ensures At(table + [e], p) == At(table, p) + (if e.path == p then [e] else [])
  {
    assert (table + [e])[..|table|] == table;
  }

  lemma {:induction false} AtPop(table: seq<Entry>, p: Path, q: Path)
    ensures At(Pop(table, p), q)
         == if p == q && At(table, p) != [] then At(table, p)[..|At(table, p)| - 1] else At(table, q)
  {
    if table == [] {
    } else {
      var front, last := table[..|table| - 1], table[|table| - 1];
      if last.path == p {
        assert At(table, p) == At(front, p) + [last];
      } else {
        AtPop(front, p, q);
        AtPush(Pop(front, p), last, q);
      }
    }
  }

  lemma {:induction false} PopMembers(table: seq<Entry>, p: Path)
    ensures forall e | e in Pop(table, p) :: e in table
  {
    if table == [] {
    } else {
      PopMembers(table[..|table| - 1], p);
    }
  }

  lemma {:induction false} NothingToTake(table: seq<Entry>, ps: set<Path>)
    requires forall p | p in ps :: At(table, p) == []
    ensures Without(table, ps) == table
  {
    if table == [] {
    } else {
      var last := table[|table| - 1];
      AtMember(table, last.path);
      assert last in table && last.path !in ps;
      forall p | p in ps ensures At(table[..|table| - 1], p) == [] {
        assert At(table, p) == At(table[..|table| - 1], p);
      }
      NothingToTake(table[..|table| - 1], ps);
    }
  }

  // Popping a path with a single mount takes the path out of the table.
  lemma {:induction false} PopSingle(table: seq<Entry>, p: Path)
    requires |At(table, p)| == 1
    ensures Pop(table, p) == Without(table, {p})
  {
    var front, last := table[..|table| - 1], table[|table| - 1];
    if last.path == p {
      NothingToTake(front, {p});
    } else {
      PopSingle(front, p);
    }
  }

  lemma {:induction false} WithoutTwice(table: seq<Entry>, ps: set<Path>, p: Path)
    ensures Without(Without(table, ps), {p}) == Without(table, ps + {p})
  {
    if table == [] {
    } else {
      var front, last := table[..|table| - 1], table[|table| - 1];
      WithoutTwice(front, ps, p);
      if last.path !in ps {
        assert (Without(front, ps) + [last])[..|Without(front, ps)|] == Without(front, ps);
      } else {
        assert Without(table, ps) == Without(front, ps);
      }
    }
  }

  lemma {:induction false} WithoutAppends(a: seq<Entry>, b: seq<Entry>, ps: set<Path>)
    ensures Without(a + b, ps) == Without(a, ps) + Without(b, ps)
  {
    if b == [] {
      assert a + b == a;
    } else {
      WithoutAppends(a, b[..|b| - 1], ps);
      assert (a + b)[..|a + b| - 1] == a + b[..|b| - 1];
    }
  }

  lemma {:induction false} AtWithout(table: seq<Entry>, ps: set<Path>, p: Path)
    ensures At(Without(table, ps), p) == if p in ps then [] else At(table, p)
  {
    if table == [] {
    } else {
      var front, last := table[..|table| - 1], table[|table| - 1];
      AtWithout(front, ps, p);
      if last.path !in ps {
        AtPush(Without(front, ps), last, p);
      } else {
        assert Without(table, ps) == Without(front, ps);
      }
    }
  }

  lemma {:induction false} ReferencesCount(table: seq<Entry>, device: string)
    ensures References(table, device) > 0 <==> exists e :: e in table && e.device == device
  {
    if table == [] {
    } else {
      ReferencesCount(table[..|table| - 1], device);
      assert table == table[..|table| - 1] + [table[|table| - 1]];
      if table[|table| - 1].device == device {
        assert table[|table| - 1] in table;
      }
    }
  }
}
