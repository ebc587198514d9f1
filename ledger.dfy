/** The per-sensor ledgers the aggregator keeps (AggregatorApp/Program.cs,
    `GravarEmCsv`). Each sensor has one append-only file of lines, a set of
    the devices that have written to it, and a lock. The first write of a
    device to a sensor puts a section marker before its data line.

    The locks only make each write atomic, so writes are modelled as
    sequential steps. `Appended` is the value-level meaning of one write,
    `Replay` of a sequence of writes, and `LedgerStore` is the object whose
    fields the aggregator updates in place. */
module Ledger {
  import opened Text

  /** One line of a sensor's file. */
  datatype Line =
    | Marker(device: string)                             // `# --- <id> ---`
    | Data(time: string, device: string, value: string)  // `<ts>;<id>;<value>`

  /** One call of the write: the device `device` reports `value` for
      `sensor` at clock reading `time`. */
  datatype Write = Write(sensor: string, device: string, value: string, time: string)

  /** The text of a line as it is appended to the file (without the line
      terminator). */
  function Render(line: Line): string
  {
    match line
    case Marker(d) => "# --- " + d + " ---"
    case Data(t, d, v) => t + [Sep] + d + [Sep] + v
  }

  /** A data line whose fields hold no `;` splits back into its three fields. */
  lemma DataLineFields(t: string, d: string, v: string)
    requires SepFree([t, d, v], Sep)
    ensures Split(Render(Data(t, d, v)), Sep) == [t, d, v]
  {
    assert Sep !in [t, d, v][0] && Sep !in [t, d, v][1] && Sep !in [t, d, v][2];
    assert Render(Data(t, d, v)) == t + [Sep] + (d + [Sep] + v);
    SplitAfterField(t, Sep, d + [Sep] + v);
    SplitAfterField(d, Sep, v);
    SplitSingle(v, Sep);
    assert [t] + ([d] + [v]) == [t, d, v];
  }

  /** Two marker lines have the same text only for the same device. */
  lemma MarkerTextNamesDevice(a: string, b: string)
    requires Render(Marker(a)) == Render(Marker(b))
    ensures a == b
  {
    var ra, rb := Render(Marker(a)), Render(Marker(b));
    assert |a| == |b|;
    assert a == ra[6..6 + |a|];
    assert b == rb[6..6 + |b|];
  }

  /** Text holding no line break. */
  predicate OneLine(s: string)
  {
    '\n' !in s && '\r' !in s
  }

  /** The fields of a line hold no line break. */
  predicate FieldsOneLine(line: Line)
  {
    match line
    case Marker(d) => OneLine(d)
    case Data(t, d, v) => OneLine(t) && OneLine(d) && OneLine(v)
  }

  /** A line whose fields hold no line break is one line of text in the
      file, and then text lines and appended lines are the same thing. */
  lemma RenderOneLine(line: Line)
    requires FieldsOneLine(line)
    ensures OneLine(Render(line))
  {
  }

  /** Fields are written verbatim, so a device ID `a ---\n# --- b` appends
      what reads as two marker lines, one of them for device `b`. */
  lemma MarkerSpansLines(a: string, b: string)
    ensures Render(Marker(a + " ---\n# --- " + b)) == Render(Marker(a)) + "\n" + Render(Marker(b))
  {
  }

  /** Likewise a value `v\n# --- b ---` appends a data line followed by what
      reads as a marker line for device `b`. */
  lemma DataSpansLines(t: string, d: string, v: string, b: string)
    ensures Render(Data(t, d, v + "\n" + Render(Marker(b)))) == Render(Data(t, d, v)) + "\n" + Render(Marker(b))
  {
  }

  /** The order rule for one sensor's file, given the set of devices the
      registry records as having written to it:
      - a device has a marker exactly when it is in the set;
      - no device has two markers;
      - every data line comes after the marker of its device. */
  ghost predicate WellFormed(file: seq<Line>, seen: set<string>)
  {
    (forall d :: d in seen ==> Marker(d) in file) &&
    (forall i :: 0 <= i < |file| && file[i].Marker? ==> file[i].device in seen) &&
    (forall i, j :: 0 <= i < j < |file| && file[i].Marker? && file[j].Marker? ==>
       file[i].device != file[j].device) &&
    (forall j :: 0 <= j < |file| && file[j].Data? ==> Marker(file[j].device) in file[..j])
  }

  /** The aggregator's ledger state: the lock map (each lock named by the
      serial number of its creation), the seen-writers registry and the
      files. */
  datatype Ledgers = Ledgers(locks: map<string, nat>, seen: map<string, set<string>>,
                             files: map<string, seq<Line>>)

  /** The state at process start: nothing written yet. */
  const Empty := Ledgers(map[], map[], map[])

  /** The file of `sensor` (a missing file reads as empty). */
  function FileOf(st: Ledgers, sensor: string): seq<Line>
  {
    if sensor in st.files then st.files[sensor] else []
  }

  /** The devices recorded as having written to `sensor`. */
  function SeenBy(st: Ledgers, sensor: string): set<string>
  {
    if sensor in st.seen then st.seen[sensor] else {}
  }

  /** Consistency of the whole state: the three maps have the same sensors,
      each sensor has its own lock, and each file obeys `WellFormed`. */
  ghost predicate Consistent(st: Ledgers)
  {
    st.locks.Keys == st.seen.Keys && st.seen.Keys == st.files.Keys &&
    LocksDistinct(st.locks) && AllWellFormed(st.files, st.seen)
  }

  /** Every file is well formed with respect to its registry entry. */
  ghost predicate AllWellFormed(files: map<string, seq<Line>>, seen: map<string, set<string>>)
  {
    forall s :: s in files && s in seen ==> WellFormed(files[s], seen[s])
  }

  /** Replacing one sensor's file and registry entry by a well-formed pair
      keeps every file well formed. */
  lemma UpdateWellFormed(files: map<string, seq<Line>>, seen: map<string, set<string>>,
                         sensor: string, file: seq<Line>, writers: set<string>)
    requires AllWellFormed(files, seen) && WellFormed(file, writers)
    ensures AllWellFormed(files[sensor := file], seen[sensor := writers])
  {
  }

  /** The state after one write. */
  function Appended(st: Ledgers, w: Write): Ledgers
  {
    var first := w.device !in SeenBy(st, w.sensor);
    var locks := if w.sensor in st.locks then st.locks else st.locks[w.sensor := |st.locks|];
    var file := FileOf(st, w.sensor) + (if first then [Marker(w.device)] else [])
                + [Data(w.time, w.device, w.value)];
    Ledgers(locks, st.seen[w.sensor := SeenBy(st, w.sensor) + {w.device}],
            st.files[w.sensor := file])
  }

  /** What one write does: the sensor's file only grows, by one data line
      preceded by one marker exactly when the device had not written to
      this sensor before; afterwards the device is recorded; the sensor's
      lock is created if missing and otherwise kept; other sensors are
      untouched. */
  lemma AppendedEffect(st: Ledgers, w: Write)
    ensures var f, f' := FileOf(st, w.sensor), FileOf(Appended(st, w), w.sensor);
            var first := w.device !in SeenBy(st, w.sensor);
            |f'| == |f| + (if first then 2 else 1) && f'[..|f|] == f &&
            f'[|f'| - 1] == Data(w.time, w.device, w.value) &&
            (first <==> Marker(w.device) in f'[|f|..])
    ensures SeenBy(Appended(st, w), w.sensor) == SeenBy(st, w.sensor) + {w.device}
    ensures w.sensor in Appended(st, w).locks
    ensures w.sensor in st.locks ==> Appended(st, w).locks == st.locks
    ensures w.sensor !in st.locks ==> Appended(st, w).locks == st.locks[w.sensor := |st.locks|]
    ensures forall s :: s != w.sensor ==>
              FileOf(Appended(st, w), s) == FileOf(st, s) && SeenBy(Appended(st, w), s) == SeenBy(st, s)
  {
    AppendedOwnFile(st, w);
    AppendedOthers(st, w);
  }

  /** The written sensor's file after one write, element by element. */
  lemma AppendedOwnFile(st: Ledgers, w: Write)
    ensures var f, f' := FileOf(st, w.sensor), FileOf(Appended(st, w), w.sensor);
            var first := w.device !in SeenBy(st, w.sensor);
            |f'| == |f| + (if first then 2 else 1) && f'[..|f|] == f &&
            f'[|f'| - 1] == Data(w.time, w.device, w.value) &&
            (first <==> Marker(w.device) in f'[|f|..])
  {
    AppendedFile(st, w);
    GrownFile(FileOf(st, w.sensor), w.device !in SeenBy(st, w.sensor), w.time, w.device, w.value);
  }

  /** A file grown by an optional marker and a data line. */
  lemma GrownFile(f: seq<Line>, first: bool, t: string, d: string, v: string)
    ensures var f' := f + (if first then [Marker(d)] else []) + [Data(t, d, v)];
            |f'| == |f| + (if first then 2 else 1) && f'[..|f|] == f &&
            f'[|f'| - 1] == Data(t, d, v) &&
            (first <==> Marker(d) in f'[|f|..])
  {
    var f' := f + (if first then [Marker(d)] else []) + [Data(t, d, v)];
    if first {
      assert f'[|f|..] == [Marker(d), Data(t, d, v)];
    } else {
      assert f'[|f|..] == [Data(t, d, v)];
    }
  }

  /** One write leaves the other sensors' files and registry entries alone. */
  lemma AppendedOthers(st: Ledgers, w: Write)
    ensures forall s :: s != w.sensor ==>
              FileOf(Appended(st, w), s) == FileOf(st, s) && SeenBy(Appended(st, w), s) == SeenBy(st, s)
  {
  }

  /** The file of the written sensor after one write. */
  lemma AppendedFile(st: Ledgers, w: Write)
    ensures FileOf(Appended(st, w), w.sensor) ==
            FileOf(st, w.sensor) + (if w.device in SeenBy(st, w.sensor) then [] else [Marker(w.device)])
            + [Data(w.time, w.device, w.value)]
  {
  }

  /** One write keeps a file well formed. */
  lemma AppendKeepsWellFormed(file: seq<Line>, seen: set<string>, t: string, d: string, v: string)
    requires WellFormed(file, seen)
    ensures WellFormed(file + (if d in seen then [] else [Marker(d)]) + [Data(t, d, v)], seen + {d})
  {
    var mid := file + (if d in seen then [] else [Marker(d)]);
    var file' := mid + [Data(t, d, v)];
    var seen' := seen + {d};
    assert Marker(d) in mid;
    forall e | e in seen' ensures Marker(e) in file' {
      if e in seen { assert Marker(e) in file; }
    }
    forall i, j | 0 <= i < j < |file'| && file'[i].Marker? && file'[j].Marker?
      ensures file'[i].device != file'[j].device
    {
      if j >= |file| {
        assert j == |file| && d !in seen && file'[j] == Marker(d);
        assert file'[i] == file[i];
      }
    }
    forall j | 0 <= j < |file'| && file'[j].Data? ensures Marker(file'[j].device) in file'[..j] {
      if j < |file| {
        assert file'[..j] == file[..j];
      } else {
        assert j == |file'| - 1 && file'[..j] == mid;
      }
    }
  }

  /** Each sensor has its own lock, numbered below the number of locks. */
  ghost predicate LocksDistinct(locks: map<string, nat>)
  {
    (forall s :: s in locks ==> locks[s] < |locks|) &&
    (forall s, t :: s in locks && t in locks && s != t ==> locks[s] != locks[t])
  }

  /** Creating a missing lock keeps the locks distinct. */
  lemma NewLockDistinct(locks: map<string, nat>, sensor: string)
    requires LocksDistinct(locks) && sensor !in locks
    ensures LocksDistinct(locks[sensor := |locks|])
  {
    assert |locks[sensor := |locks|]| == |locks| + 1;
  }

  /** One write keeps every file well formed. */
  lemma AppendedWellFormed(st: Ledgers, w: Write)
    requires AllWellFormed(st.files, st.seen)
    requires w.sensor in st.files <==> w.sensor in st.seen
    ensures AllWellFormed(Appended(st, w).files, Appended(st, w).seen)
  {
    var first := w.device !in SeenBy(st, w.sensor);
    var file := FileOf(st, w.sensor) + (if first then [Marker(w.device)] else [])
                + [Data(w.time, w.device, w.value)];
    var writers := SeenBy(st, w.sensor) + {w.device};
    assert WellFormed(FileOf(st, w.sensor), SeenBy(st, w.sensor));
    AppendKeepsWellFormed(FileOf(st, w.sensor), SeenBy(st, w.sensor), w.time, w.device, w.value);
    UpdateWellFormed(st.files, st.seen, w.sensor, file, writers);
  }

  /** One write keeps the whole state consistent. */
  lemma AppendedConsistent(st: Ledgers, w: Write)
    requires Consistent(st)
    ensures Consistent(Appended(st, w))
  {
    var st' := Appended(st, w);
    if w.sensor !in st.locks {
      NewLockDistinct(st.locks, w.sensor);
    }
    assert LocksDistinct(st'.locks);
    AppendedWellFormed(st, w);
    AppendedSensors(st, w);
    ConsistentIntro(st');
  }

  /** One write adds its sensor to each of the three maps. */
  lemma AppendedSensors(st: Ledgers, w: Write)
    ensures Appended(st, w).locks.Keys == st.locks.Keys + {w.sensor}
    ensures Appended(st, w).seen.Keys == st.seen.Keys + {w.sensor}
    ensures Appended(st, w).files.Keys == st.files.Keys + {w.sensor}
  {
    var a := Appended(st, w);
    UpdateKeys(st.seen, w.sensor, a.seen[w.sensor]);
    UpdateKeys(st.files, w.sensor, a.files[w.sensor]);
    if w.sensor in st.locks {
      assert a.locks == st.locks;
      UpdateKeys(st.locks, w.sensor, st.locks[w.sensor]);
      assert st.locks[w.sensor := st.locks[w.sensor]] == st.locks;
    } else {
      UpdateKeys(st.locks, w.sensor, |st.locks|);
    }
  }

  lemma UpdateKeys<V>(m: map<string, V>, k: string, v: V)
    ensures m[k := v].Keys == m.Keys + {k}
  {
  }

  lemma ConsistentIntro(st: Ledgers)
    requires st.locks.Keys == st.seen.Keys && st.seen.Keys == st.files.Keys
    requires LocksDistinct(st.locks) && AllWellFormed(st.files, st.seen)
    ensures Consistent(st)
  {
  }

  /** The state after the writes `ws`, in order, starting from `st`. */
  function Replay(st: Ledgers, ws: seq<Write>): Ledgers
    decreases |ws|
  {
    if ws == [] then st else Appended(Replay(st, ws[..|ws| - 1]), ws[|ws| - 1])
  }

  /** Replaying one more write is appending it. */
  lemma ReplaySnoc(st: Ledgers, ws: seq<Write>, w: Write)
    ensures Replay(st, ws + [w]) == Appended(Replay(st, ws), w)
  {
    assert (ws + [w])[..|ws|] == ws;
  }

  /** Replaying two batches of writes one after the other is replaying
      them together. */
  lemma {:induction false} ReplayConcat(st: Ledgers, a: seq<Write>, b: seq<Write>)
    ensures Replay(st, a + b) == Replay(Replay(st, a), b)
    decreases |b|
  {
    if b == [] {
      assert a + b == a;
    } else {
      var b', w := b[..|b| - 1], b[|b| - 1];
      assert a + b == (a + b') + [w] && b == b' + [w];
      calc {
        Replay(st, (a + b') + [w]);
        { ReplaySnoc(st, a + b', w); }
        Appended(Replay(st, a + b'), w);
        { ReplayConcat(st, a, b'); }
        Appended(Replay(Replay(st, a), b'), w);
        { ReplaySnoc(Replay(st, a), b', w); }
        Replay(Replay(st, a), b' + [w]);
      }
    }
  }

  /** Any sequence of writes keeps the state consistent. */
  lemma {:induction false} ReplayConsistent(st: Ledgers, ws: seq<Write>)
    requires Consistent(st)
    ensures Consistent(Replay(st, ws))
    decreases |ws|
  {
    if ws != [] {
      ReplayConsistent(st, ws[..|ws| - 1]);
      AppendedConsistent(Replay(st, ws[..|ws| - 1]), ws[|ws| - 1]);
    }
  }

  /** The data lines of a file, in file order. */
  function DataLines(file: seq<Line>): seq<Line>
    decreases |file|
  {
    if file == [] then []
    else DataLines(file[..|file| - 1]) + (if file[|file| - 1].Data? then [file[|file| - 1]] else [])
  }

  /** The data lines the writes `ws` to `sensor` should produce, in
      submission order. */
  function LinesFor(ws: seq<Write>, sensor: string): seq<Line>
    decreases |ws|
  {
    if ws == [] then []
    else
      var w := ws[|ws| - 1];
      LinesFor(ws[..|ws| - 1], sensor) + (if w.sensor == sensor then [Data(w.time, w.device, w.value)] else [])
  }

  lemma LinesForLast(ws: seq<Write>, sensor: string)
    requires ws != []
    ensures var w := ws[|ws| - 1];
            LinesFor(ws, sensor) ==
            LinesFor(ws[..|ws| - 1], sensor) + (if w.sensor == sensor then [Data(w.time, w.device, w.value)] else [])
  {
  }

  /** The devices among `ws` that wrote to `sensor`. */
  function WritersTo(ws: seq<Write>, sensor: string): set<string>
    decreases |ws|
  {
    if ws == [] then {}
    else
      var w := ws[|ws| - 1];
      WritersTo(ws[..|ws| - 1], sensor) + (if w.sensor == sensor then {w.device} else {})
  }

  lemma {:induction false} DataLinesAppend(a: seq<Line>, b: seq<Line>)
    ensures DataLines(a + b) == DataLines(a) + DataLines(b)
    decreases |b|
  {
    if b == [] {
      assert a + b == a;
    } else {
      var b0 := b[..|b| - 1];
      DataLinesAppend(a, b0);
      assert (a + b)[..|a + b| - 1] == a + b0;
    }
  }

  /** One write keeps its sensor's file as a prefix and adds exactly its
      own data line to the file's data lines. */
  lemma AppendedDataLines(st: Ledgers, w: Write)
    ensures var g, h := FileOf(st, w.sensor), FileOf(Appended(st, w), w.sensor);
            |g| <= |h| && h[..|g|] == g &&
            DataLines(h) == DataLines(g) + [Data(w.time, w.device, w.value)]
  {
    var g, h := FileOf(st, w.sensor), FileOf(Appended(st, w), w.sensor);
    var marker: seq<Line> := if w.device !in SeenBy(st, w.sensor) then [Marker(w.device)] else [];
    var data := Data(w.time, w.device, w.value);
    AppendedFile(st, w);
    assert h == g + marker + [data];
    DataLinesAppend(g + marker, [data]);
    DataLinesAppend(g, marker);
    assert DataLines(marker) == [] by {
      if marker != [] { assert marker[..0] == []; }
    }
    assert DataLines([data]) == [data] by {
      assert [data][..0] == [];
    }
    assert DataLines(g) + [] == DataLines(g);
  }

  /** Over any sequence of writes every file keeps what it had and gains
      one data line per write to its sensor, in submission order. */
  lemma {:induction false} ReplayFileGrowth(st: Ledgers, ws: seq<Write>, sensor: string)
    ensures var f, f' := FileOf(st, sensor), FileOf(Replay(st, ws), sensor);
            |f| <= |f'| && f'[..|f|] == f &&
            DataLines(f') == DataLines(f) + LinesFor(ws, sensor)
    decreases |ws|
  {
    if ws != [] {
      var ws0, w := ws[..|ws| - 1], ws[|ws| - 1];
      var mid := Replay(st, ws0);
      ReplayFileGrowth(st, ws0, sensor);
      LinesForLast(ws, sensor);
      assert Replay(st, ws) == Appended(mid, w);
      var f, g, h := FileOf(st, sensor), FileOf(mid, sensor), FileOf(Appended(mid, w), sensor);
      if w.sensor == sensor {
        var data := Data(w.time, w.device, w.value);
        AppendedDataLines(mid, w);
        assert h[..|f|] == h[..|g|][..|f|] == g[..|f|];
        ConcatAssoc(DataLines(f), LinesFor(ws0, sensor), [data]);
        assert LinesFor(ws, sensor) == LinesFor(ws0, sensor) + [data];
      } else {
        assert h == g;
        assert LinesFor(ws0, sensor) + [] == LinesFor(ws0, sensor);
      }
    }
  }

  /** Over any sequence of writes a sensor's registry entry gains exactly
      the devices that wrote to it. */
  lemma {:induction false} ReplaySeen(st: Ledgers, ws: seq<Write>, sensor: string)
    ensures SeenBy(Replay(st, ws), sensor) == SeenBy(st, sensor) + WritersTo(ws, sensor)
    decreases |ws|
  {
    if ws != [] {
      ReplaySeen(st, ws[..|ws| - 1], sensor);
    }
  }

  /** A sensor's lock, once created, is never replaced. */
  lemma {:induction false} ReplayKeepsLock(st: Ledgers, ws: seq<Write>, sensor: string)
    requires sensor in st.locks
    ensures sensor in Replay(st, ws).locks && Replay(st, ws).locks[sensor] == st.locks[sensor]
    decreases |ws|
  {
    if ws != [] {
      ReplayKeepsLock(st, ws[..|ws| - 1], sensor);
    }
  }

  /** In a well-formed file a device has one marker if the registry
      records it and none otherwise. */
  lemma MarkerOccurrences(file: seq<Line>, seen: set<string>, d: string)
    requires WellFormed(file, seen)
    ensures multiset(file)[Marker(d)] == if d in seen then 1 else 0
  {
    AtMostOneMarker(file, d);
    assert Marker(d) in file <==> d in seen;
  }

  /** Distinct marker devices make the count of one marker at most one. */
  lemma {:induction false} AtMostOneMarker(file: seq<Line>, d: string)
    requires forall i, j :: 0 <= i < j < |file| && file[i].Marker? && file[j].Marker? ==>
               file[i].device != file[j].device
    ensures multiset(file)[Marker(d)] <= 1
    decreases |file|
  {
    if file != [] {
      var init, last := file[..|file| - 1], file[|file| - 1];
      assert file == init + [last];
      AtMostOneMarker(init, d);
      if last == Marker(d) {
        forall i | 0 <= i < |init| ensures init[i] != Marker(d) {
          assert init[i] == file[i];
        }
        assert multiset(init)[Marker(d)] == 0;
      }
    }
  }

  /** From the empty state, after any sequence of writes, a sensor's file
      holds exactly one marker per device that wrote to it and none for any
      other device, every data line comes after its device's marker, and the
      data lines are those of the writes to that sensor, in order. */
  lemma LedgerAfterWrites(ws: seq<Write>, sensor: string, d: string)
    ensures var f := FileOf(Replay(Empty, ws), sensor);
            multiset(f)[Marker(d)] == (if d in WritersTo(ws, sensor) then 1 else 0) &&
            DataLines(f) == LinesFor(ws, sensor) &&
            (forall j :: 0 <= j < |f| && f[j].Data? ==> Marker(f[j].device) in f[..j])
  {
    var st := Replay(Empty, ws);
    ReplayConsistent(Empty, ws);
    ReplayFileGrowth(Empty, ws, sensor);
    ReplaySeen(Empty, ws, sensor);
    if sensor in st.files {
      MarkerOccurrences(st.files[sensor], st.seen[sensor], d);
    } else {
      assert WritersTo(ws, sensor) == {};
    }
  }

  /** After a restart the registry is empty again while the files stay:
      a device whose marker is already in a sensor's file gets a second
      marker with its next write to that sensor. */
  lemma RestartRepeatsMarker(disk: seq<Line>, w: Write)
    requires Marker(w.device) in disk
    ensures var f := FileOf(Appended(Ledgers(map[], map[], map[w.sensor := disk]), w), w.sensor);
            multiset(f)[Marker(w.device)] >= 2 && !WellFormed(f, {w.device})
  {
    var st := Ledgers(map[], map[], map[w.sensor := disk]);
    var f := FileOf(Appended(st, w), w.sensor);
    var i :| 0 <= i < |disk| && disk[i] == Marker(w.device);
    assert f == disk + [Marker(w.device)] + [Data(w.time, w.device, w.value)];
    assert f[i] == Marker(w.device) && f[|disk|] == Marker(w.device);
    assert multiset(f) == multiset(disk) + multiset([Marker(w.device)]) + multiset([Data(w.time, w.device, w.value)]);
    assert disk[i] in multiset(disk);
  }

  /** The aggregator's shared ledger state, updated in place by each write. */
  class LedgerStore {
    var locks: map<string, nat>
    var seen: map<string, set<string>>
    var files: map<string, seq<Line>>

    /** The value this object stands for. */
    function Model(): Ledgers
      reads this
    {
      Ledgers(locks, seen, files)
    }

    ghost predicate Valid()
      reads this
    {
      Consistent(Model())
    }

    /** The state at process start: no locks and an empty registry, but
        the ledger files already on `disk` from earlier runs. The state is
        consistent exactly when there are none. */
    constructor (disk: map<string, seq<Line>>)
      ensures Model() == Ledgers(map[], map[], disk)
      ensures Valid() <==> disk == map[]
    {
      locks, seen, files := map[], map[], disk;
      if disk.Keys == {} {
        assert disk == map[];
      }
    }

    /** Appends the reading of `device` for `sensor` at `now`; `first` tells
        whether a marker was written before it. */
    method Append(device: string, sensor: string, value: string, now: string) returns (first: bool)
      modifies this
      ensures old(Valid()) ==> Valid()
      ensures first == (device !in SeenBy(old(Model()), sensor))
      ensures Model() == Appended(old(Model()), Write(sensor, device, value, now))
    {
      ghost var st, w := Model(), Write(sensor, device, value, now);
      // get or create the sensor's lock
      if sensor !in locks {
        locks := locks[sensor := |locks|];
      }
      // under that lock: the registry entry, then marker and data line
      var writers := if sensor in seen then seen[sensor] else {};
      first := device !in writers;
      seen := seen[sensor := writers + {device}];
      var file := if sensor in files then files[sensor] else [];
      ghost var before := file;
      if first {
        file := file + [Marker(device)];
      } else {
        assert file == before + [];
      }
      files := files[sensor := file + [Data(now, device, value)]];
      assert Model() == Appended(st, w);
      if Consistent(st) {
        AppendedConsistent(st, w);
      }
    }
  }
}
