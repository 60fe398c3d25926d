/**
 * The configuration file: what saving prints and what loading makes of it, line by line.  A line
 * is its key with its words already split; thresholds are integer percents.
 */
module Config {

  const MAX_IFACES: nat := 8
  const MAX_FILTERS: nat := 16

  /** A word of the file: a name, a path, a value. */
  datatype Word = Word(chars: string)

  const NOTHING: Word := Word("")

  datatype Filter = Filter(id: nat, mask: nat)

  datatype Iface = Iface(
    name: Word, bitrate: int, dbitrate: int, fd: bool, up: bool, filters: seq<Filter>, dbc: Word)

  datatype NumKey =
    | TcpPort | MaxClients | VideoWidth | VideoHeight | VideoFps | VideoBitratePpx
    | AiInputSize | AiConf | AiNms | AiIntervalMs | AiThreads

  datatype TextKey = TcpBind | IpIfname | IpMode | IpAddr | IpMask | IpGw | VideoDevice | AiModel | AiNames

  datatype Line =
    | CanIfname(name: Word)
    | CanBitrate(name: Word, rate: int)
    | CanDbitrate(name: Word, rate: int)
    | CanFd(name: Word, on: bool)
    | CanUp(name: Word, on: bool)
    | CanFilter(name: Word, filter: Filter)
    | CanDbc(name: Word, path: Word)
    | Number(num: NumKey, value: int)
    | Text(text: TextKey, words: Word)

  datatype Settings = Settings(ifaces: seq<Iface>, nums: map<NumKey, int>, texts: map<TextKey, Word>)

  ghost predicate Whole(c: Settings) {
    (forall k :: k in c.nums) && (forall k :: k in c.texts)
  }

  // ---------------------------------------------------------------- loading

  /** Limits a number is clamped to. */
  function Range(k: NumKey): (int, int) {
    match k
    case TcpPort => (1, 65535)
    case MaxClients => (1, 32)
    case VideoWidth => (1, 4096)
    case VideoHeight => (1, 4096)
    case VideoFps => (0, 120)
    case VideoBitratePpx => (50, 800)
    case AiInputSize => (32, 2048)
    case AiConf => (1, 100)
    case AiNms => (1, 100)
    case AiIntervalMs => (10, 5000)
    case AiThreads => (3, 15)
  }

  function Clamped(k: NumKey, v: int): int {
    var (lo, hi) := Range(k);
    if v < lo then lo else if v > hi then hi else v
  }

  /** The number of inference threads is rounded down to a multiple of three. */
  function LoadedNumber(k: NumKey, v: int): int {
    var t := Clamped(k, v);
    if k.AiThreads? then t - t % 3 else t
  }

  function StartNumber(k: NumKey): int {
    match k
    case VideoWidth => 640
    case VideoHeight => 480
    case VideoBitratePpx => 175
    case AiInputSize => 640
    case AiConf => 25
    case AiNms => 45
    case AiIntervalMs => 10
    case AiThreads => 3
    case _ => 0
  }

  function StartText(k: TextKey): Word {
    match k
    case AiModel => Word("config/yolo26.rknn")
    case AiNames => Word("config/coco.names")
    case _ => NOTHING
  }

  const ALL_NUMS: set<NumKey> :=
    {TcpPort, MaxClients, VideoWidth, VideoHeight, VideoFps, VideoBitratePpx,
     AiInputSize, AiConf, AiNms, AiIntervalMs, AiThreads}

  const ALL_TEXTS: set<TextKey> := {TcpBind, IpIfname, IpMode, IpAddr, IpMask, IpGw, VideoDevice, AiModel, AiNames}

  function Start(): Settings {
    Settings([], map k | k in ALL_NUMS :: StartNumber(k), map k | k in ALL_TEXTS :: StartText(k))
  }

  /** First interface of that name; |ifaces| if there is none. */
  function IndexOf(ifaces: seq<Iface>, name: Word): (i: nat)
    ensures i <= |ifaces|
    ensures i < |ifaces| ==> ifaces[i].name == name
  {
    if ifaces == [] then 0 else if ifaces[0].name == name then 0 else 1 + IndexOf(ifaces[1..], name)
  }

  /** No interface before it has the name. */
  lemma {:induction false} IndexIsFirst(ifaces: seq<Iface>, name: Word, j: nat)
    requires j < |ifaces| && ifaces[j].name == name
    ensures IndexOf(ifaces, name) <= j
  {
    if ifaces[0].name != name {
      IndexIsFirst(ifaces[1..], name, j - 1);
    }
  }

  function Blank(name: Word): Iface { Iface(name, 0, 0, false, false, [], NOTHING) }

  /** Interface settings apply to the first interface of that name and are ignored without one. */
  function ApplyIface(s: Iface, l: Line): Iface {
    match l
    case CanBitrate(_, rate) => s.(bitrate := rate)
    case CanDbitrate(_, rate) => s.(dbitrate := rate)
    case CanFd(_, on) => s.(fd := on)
    case CanUp(_, on) => s.(up := on)
    case CanFilter(_, f) => s.(filters := AddFilter(s.filters, f))
    case CanDbc(_, path) => if path == NOTHING then s else s.(dbc := path)
    case _ => s
  }

  function AddFilter(fs: seq<Filter>, f: Filter): seq<Filter> {
    if |fs| < MAX_FILTERS then fs + [f] else fs
  }

  function OnIface(ifaces: seq<Iface>, l: Line): (r: seq<Iface>)
    requires !l.Number? && !l.Text? && !l.CanIfname?
    ensures |r| == |ifaces| && forall i :: 0 <= i < |ifaces| ==> r[i].name == ifaces[i].name
  {
    var i := IndexOf(ifaces, l.name);
    if i < |ifaces| then ifaces[i := ApplyIface(ifaces[i], l)] else ifaces
  }

  /** One line; a text key without a value, or an interface line without a name, is no line at all. */
  function Apply(c: Settings, l: Line): Settings {
    match l
    case CanIfname(name) =>
      if name != NOTHING && |c.ifaces| < MAX_IFACES then c.(ifaces := c.ifaces + [Blank(name)]) else c
    case Number(k, v) => c.(nums := c.nums[k := LoadedNumber(k, v)])
    case Text(k, words) => if words == NOTHING then c else c.(texts := c.texts[k := words])
    case _ => if l.name == NOTHING then c else c.(ifaces := OnIface(c.ifaces, l))
  }

  function ApplyAll(c: Settings, lines: seq<Line>): Settings {
    if lines == [] then c else Apply(ApplyAll(c, lines[..|lines| - 1]), lines[|lines| - 1])
  }

  /** Numbers that must be positive fall back to their defaults at the end. */
  function Completed(c: Settings): Settings
    requires Whole(c)
  {
    var fix := (n: map<NumKey, int>, k: NumKey, d: int) requires k in n => if n[k] <= 0 then n[k := d] else n;
    var n1 := fix(c.nums, TcpPort, 6666);
    var n2 := fix(n1, MaxClients, 16);
    var n3 := fix(n2, VideoWidth, 640);
    var n4 := fix(n3, VideoHeight, 480);
    c.(nums := fix(n4, VideoBitratePpx, 175))
  }

  lemma {:induction false} ApplyAllWhole(c: Settings, lines: seq<Line>)
    requires Whole(c)
    ensures Whole(ApplyAll(c, lines))
  {
    if lines != [] {
      ApplyAllWhole(c, lines[..|lines| - 1]);
    }
  }

  lemma StartWhole()
    ensures Whole(Start())
  {
    forall k: NumKey ensures k in ALL_NUMS {
      match k
      case TcpPort => case MaxClients => case VideoWidth => case VideoHeight => case VideoFps => case VideoBitratePpx =>
      case AiInputSize => case AiConf => case AiNms => case AiIntervalMs => case AiThreads =>
    }
    forall k: TextKey ensures k in ALL_TEXTS {
      match k
      case TcpBind => case IpIfname => case IpMode => case IpAddr => case IpMask => case IpGw =>
      case VideoDevice => case AiModel => case AiNames =>
    }
  }

  function Load(lines: seq<Line>): Settings {
    StartWhole();
    ApplyAllWhole(Start(), lines);
    Completed(ApplyAll(Start(), lines))
  }

  // ---------------------------------------------------------------- saving

  function NameLines(ifaces: seq<Iface>): seq<Line> {
    if ifaces == [] then [] else NameLines(ifaces[..|ifaces| - 1]) + [CanIfname(ifaces[|ifaces| - 1].name)]
  }

  function FilterLines(name: Word, fs: seq<Filter>): seq<Line> {
    if fs == [] then [] else FilterLines(name, fs[..|fs| - 1]) + [CanFilter(name, fs[|fs| - 1])]
  }

  function IfaceLines(e: Iface): seq<Line> {
    [CanBitrate(e.name, e.bitrate), CanFd(e.name, e.fd), CanDbitrate(e.name, e.dbitrate), CanUp(e.name, e.up)]
    + FilterLines(e.name, e.filters)
  }

  function AllIfaceLines(ifaces: seq<Iface>): seq<Line> {
    if ifaces == [] then [] else AllIfaceLines(ifaces[..|ifaces| - 1]) + IfaceLines(ifaces[|ifaces| - 1])
  }

  function DbcLines(ifaces: seq<Iface>): seq<Line> {
    if ifaces == [] then []
    else
      var e := ifaces[|ifaces| - 1];
      DbcLines(ifaces[..|ifaces| - 1]) + if e.dbc != NOTHING then [CanDbc(e.name, e.dbc)] else []
  }

  datatype Key = Num(n: NumKey) | Txt(t: TextKey)

  const KEYS: nat := 20

  /** The n-th scalar setting that is printed. */
  function KeyAt(n: nat): Key
    requires n < KEYS
  {
    match n
    case 0 => Num(TcpPort)
    case 1 => Num(MaxClients)
    case 2 => Txt(TcpBind)
    case 3 => Txt(IpIfname)
    case 4 => Txt(IpMode)
    case 5 => Txt(IpAddr)
    case 6 => Txt(IpMask)
    case 7 => Txt(IpGw)
    case 8 => Txt(VideoDevice)
    case 9 => Num(VideoWidth)
    case 10 => Num(VideoHeight)
    case 11 => Num(VideoFps)
    case 12 => Num(VideoBitratePpx)
    case 13 => Txt(AiModel)
    case 14 => Txt(AiNames)
    case 15 => Num(AiInputSize)
    case 16 => Num(AiConf)
    case 17 => Num(AiNms)
    case 18 => Num(AiIntervalMs)
    case _ => Num(AiThreads)
  }

  /** Its place in that order. */
  function Place(k: Key): nat {
    match k
    case Num(TcpPort) => 0
    case Num(MaxClients) => 1
    case Txt(TcpBind) => 2
    case Txt(IpIfname) => 3
    case Txt(IpMode) => 4
    case Txt(IpAddr) => 5
    case Txt(IpMask) => 6
    case Txt(IpGw) => 7
    case Txt(VideoDevice) => 8
    case Num(VideoWidth) => 9
    case Num(VideoHeight) => 10
    case Num(VideoFps) => 11
    case Num(VideoBitratePpx) => 12
    case Txt(AiModel) => 13
    case Txt(AiNames) => 14
    case Num(AiInputSize) => 15
    case Num(AiConf) => 16
    case Num(AiNms) => 17
    case Num(AiIntervalMs) => 18
    case Num(AiThreads) => 19
  }

  /** The order lists every scalar setting exactly once. */
  lemma OrderIsComplete(n: nat, k: Key)
    ensures n < KEYS ==> Place(KeyAt(n)) == n
    ensures Place(k) < KEYS && KeyAt(Place(k)) == k
  {
  }

  /** Unset numbers are printed as their defaults. */
  function SavedNumber(k: NumKey, v: int): int {
    if v > 0 then v
    else
      match k
      case VideoBitratePpx => 175
      case AiInputSize => 640
      case AiConf => 25
      case AiNms => 45
      case AiIntervalMs => 200
      case AiThreads => 2
      case _ => v
  }

  function KeyLines(c: Settings, k: Key): seq<Line>
    requires Whole(c)
  {
    match k
    case Num(n) => [Number(n, SavedNumber(n, c.nums[n]))]
    case Txt(VideoDevice) => [Text(VideoDevice, c.texts[VideoDevice])]
    case Txt(AiModel) => [Text(AiModel, if c.texts[AiModel] == NOTHING then StartText(AiModel) else c.texts[AiModel])]
    case Txt(AiNames) => [Text(AiNames, if c.texts[AiNames] == NOTHING then StartText(AiNames) else c.texts[AiNames])]
    case Txt(t) => if c.texts[t] == NOTHING then [] else [Text(t, c.texts[t])]
  }

  function ScalarLines(c: Settings, n: nat): seq<Line>
    requires Whole(c) && n <= KEYS
  {
    if n == 0 then [] else ScalarLines(c, n - 1) + KeyLines(c, KeyAt(n - 1))
  }

  function Save(c: Settings): seq<Line>
    requires Whole(c)
  {
    NameLines(c.ifaces) + AllIfaceLines(c.ifaces) + ScalarLines(c, KEYS) + DbcLines(c.ifaces)
  }

  // ---------------------------------------------------------------- loading what was saved

  lemma {:induction false} ApplyConcat(c: Settings, a: seq<Line>, b: seq<Line>)
    ensures ApplyAll(c, a + b) == ApplyAll(ApplyAll(c, a), b)
  {
    if b == [] {
      assert a + b == a;
    } else {
      var m := |b| - 1;
      assert (a + b)[..|a| + m] == a + b[..m];
      ApplyConcat(c, a, b[..m]);
    }
  }

  lemma ApplyOne(c: Settings, l: Line)
    ensures ApplyAll(c, [l]) == Apply(c, l)
  {
    assert ApplyAll(c, [l][..0]) == c;
  }

  function Blanks(ifaces: seq<Iface>): (r: seq<Iface>)
    ensures |r| == |ifaces| && forall i :: 0 <= i < |ifaces| ==> r[i] == Blank(ifaces[i].name)
  {
    seq(|ifaces|, i requires 0 <= i < |ifaces| => Blank(ifaces[i].name))
  }

  /** Every interface has a name. */
  ghost predicate Nameable(es: seq<Iface>) {
    forall i :: 0 <= i < |es| ==> es[i].name != NOTHING
  }

  lemma {:induction false} NamesLoaded(c: Settings, ifaces: seq<Iface>)
    requires c.ifaces == [] && |ifaces| <= MAX_IFACES && Nameable(ifaces)
    ensures ApplyAll(c, NameLines(ifaces)) == c.(ifaces := Blanks(ifaces))
  {
    if ifaces != [] {
      var m := |ifaces| - 1;
      NamesLoaded(c, ifaces[..m]);
      ApplyConcat(c, NameLines(ifaces[..m]), [CanIfname(ifaces[m].name)]);
      ApplyOne(c.(ifaces := Blanks(ifaces[..m])), CanIfname(ifaces[m].name));
    }
  }

  /** An interface after the settings lines of entry e. */
  function Merge(s: Iface, e: Iface): Iface {
    s.(bitrate := e.bitrate, fd := e.fd, dbitrate := e.dbitrate, up := e.up, filters := AddAll(s.filters, e.filters))
  }

  function AddAll(fs: seq<Filter>, es: seq<Filter>): seq<Filter> {
    if es == [] then fs else AddFilter(AddAll(fs, es[..|es| - 1]), es[|es| - 1])
  }

  lemma {:induction false} AddAllFits(fs: seq<Filter>, es: seq<Filter>)
    requires |fs| + |es| <= MAX_FILTERS
    ensures AddAll(fs, es) == fs + es
  {
    if es != [] {
      AddAllFits(fs, es[..|es| - 1]);
    }
  }

  /** Interface i of the configuration replaced. */
  function Put(c: Settings, i: nat, s: Iface): Settings
    requires i < |c.ifaces|
  {
    c.(ifaces := c.ifaces[i := s])
  }

  /** Which interface comes first depends on the names alone. */
  lemma {:induction false} IndexSame(s: seq<Iface>, t: seq<Iface>, name: Word)
    requires |s| == |t| && forall i :: 0 <= i < |s| ==> s[i].name == t[i].name
    ensures IndexOf(s, name) == IndexOf(t, name)
  {
    if s != [] {
      IndexSame(s[1..], t[1..], name);
    }
  }

  lemma FirstStays(ifaces: seq<Iface>, name: Word, i: nat, s: Iface)
    requires i < |ifaces| && s.name == ifaces[i].name
    ensures IndexOf(ifaces[i := s], name) == IndexOf(ifaces, name)
  {
    IndexSame(ifaces[i := s], ifaces, name);
  }

  /** A settings line changes the first interface of its name and nothing else. */
  lemma LineLoaded(c: Settings, i: nat, s: Iface, l: Line)
    requires !l.Number? && !l.Text? && !l.CanIfname? && l.name != NOTHING
    requires i == IndexOf(c.ifaces, l.name) && i < |c.ifaces| && s.name == l.name
    ensures Apply(Put(c, i, s), l) == Put(c, i, ApplyIface(s, l))
  {
    FirstStays(c.ifaces, l.name, i, s);
  }

  lemma {:induction false} FiltersLoaded(c: Settings, i: nat, s: Iface, name: Word, fs: seq<Filter>)
    requires i == IndexOf(c.ifaces, name) && i < |c.ifaces| && s.name == name != NOTHING
    ensures ApplyAll(Put(c, i, s), FilterLines(name, fs)) == Put(c, i, s.(filters := AddAll(s.filters, fs)))
  {
    hide Apply, IndexOf, AddFilter;
    if fs != [] {
      var m := |fs| - 1;
      FiltersLoaded(c, i, s, name, fs[..m]);
      LineLoaded(c, i, s.(filters := AddAll(s.filters, fs[..m])), CanFilter(name, fs[m]));
    }
  }

  lemma ScalarsLoaded(c: Settings, i: nat, e: Iface)
    requires i == IndexOf(c.ifaces, e.name) && i < |c.ifaces| && e.name != NOTHING
    ensures var l1, l2, l3, l4 :=
              CanBitrate(e.name, e.bitrate), CanFd(e.name, e.fd), CanDbitrate(e.name, e.dbitrate), CanUp(e.name, e.up);
            ApplyAll(c, [l1, l2, l3, l4])
            == Put(c, i, c.ifaces[i].(bitrate := e.bitrate, fd := e.fd, dbitrate := e.dbitrate, up := e.up))
  {
    hide ApplyAll, Apply, IndexOf, OnIface;
    var s := c.ifaces[i];
    assert Put(c, i, s) == c;
    var l1, l2, l3, l4 := CanBitrate(e.name, e.bitrate), CanFd(e.name, e.fd), CanDbitrate(e.name, e.dbitrate), CanUp(e.name, e.up);
    var s1 := s.(bitrate := e.bitrate);
    var s2 := s1.(fd := e.fd);
    var s3 := s2.(dbitrate := e.dbitrate);
    LineLoaded(c, i, s, l1);
    LineLoaded(c, i, s1, l2);
    LineLoaded(c, i, s2, l3);
    LineLoaded(c, i, s3, l4);
    FourLines(c, l1, l2, l3, l4);
  }

  lemma IfaceLoaded(c: Settings, e: Iface)
    requires IndexOf(c.ifaces, e.name) < |c.ifaces| && e.name != NOTHING
    ensures var i := IndexOf(c.ifaces, e.name);
            ApplyAll(c, IfaceLines(e)) == Put(c, i, Merge(c.ifaces[i], e))
  {
    hide ApplyAll, Apply, IndexOf, FilterLines, AddAll;
    var i := IndexOf(c.ifaces, e.name);
    assert c.ifaces[i].name == e.name;
    var four := [CanBitrate(e.name, e.bitrate), CanFd(e.name, e.fd), CanDbitrate(e.name, e.dbitrate), CanUp(e.name, e.up)];
    ScalarsLoaded(c, i, e);
    ApplyConcat(c, four, FilterLines(e.name, e.filters));
    FiltersLoaded(c, i, c.ifaces[i].(bitrate := e.bitrate, fd := e.fd, dbitrate := e.dbitrate, up := e.up),
                  e.name, e.filters);
  }

  lemma FourLines(c: Settings, l1: Line, l2: Line, l3: Line, l4: Line)
    ensures ApplyAll(c, [l1, l2, l3, l4]) == Apply(Apply(Apply(Apply(c, l1), l2), l3), l4)
  {
    hide Apply;
    assert [l1, l2, l3, l4] == (([l1] + [l2]) + [l3]) + [l4];
    ApplyConcat(c, [l1] + [l2] + [l3], [l4]);
    ApplyConcat(c, [l1] + [l2], [l3]);
    ApplyConcat(c, [l1], [l2]);
    ApplyOne(c, l1);
    ApplyOne(Apply(c, l1), l2);
    ApplyOne(Apply(Apply(c, l1), l2), l3);
    ApplyOne(Apply(Apply(Apply(c, l1), l2), l3), l4);
  }

  /** The interfaces after the settings lines of the first n entries. */
  function Merged(es: seq<Iface>, n: nat): (r: seq<Iface>)
    requires n <= |es|
    ensures |r| == |es| && forall i :: 0 <= i < |es| ==> r[i].name == es[i].name
  {
    if n == 0 then Blanks(es)
    else
      var s := Merged(es, n - 1);
      var i := IndexOf(s, es[n - 1].name);
      if i < |s| then s[i := Merge(s[i], es[n - 1])] else s
  }

  lemma IndexFound(s: seq<Iface>, es: seq<Iface>, k: nat)
    requires |s| == |es| && k < |es| && forall i :: 0 <= i < |es| ==> s[i].name == es[i].name
    ensures IndexOf(s, es[k].name) == IndexOf(es, es[k].name) <= k
  {
    IndexSame(s, es, es[k].name);
    IndexIsFirst(es, es[k].name, k);
  }

  lemma {:induction false} IfacesLoaded(c: Settings, es: seq<Iface>, n: nat)
    requires n <= |es| && c.ifaces == Blanks(es) && Nameable(es)
    ensures ApplyAll(c, AllIfaceLines(es[..n])) == c.(ifaces := Merged(es, n))
  {
    if n > 0 {
      hide Apply, IfaceLines, Merge, IndexOf;
      IfacesLoaded(c, es, n - 1);
      assert es[..n][..n - 1] == es[..n - 1];
      var c1 := c.(ifaces := Merged(es, n - 1));
      IndexFound(Merged(es, n - 1), es, n - 1);
      IfaceLoaded(c1, es[n - 1]);
      ApplyConcat(c, AllIfaceLines(es[..n - 1]), IfaceLines(es[n - 1]));
    }
  }

  /** Then the database paths of the first n entries. */
  function WithDbc(s: seq<Iface>, es: seq<Iface>, n: nat): (r: seq<Iface>)
    requires n <= |es|
    ensures |r| == |s| && forall i :: 0 <= i < |s| ==> r[i].name == s[i].name
  {
    if n == 0 then s
    else
      var r := WithDbc(s, es, n - 1);
      if es[n - 1].dbc == NOTHING then r else OnIface(r, CanDbc(es[n - 1].name, es[n - 1].dbc))
  }

  lemma {:induction false} DbcLoaded(c: Settings, es: seq<Iface>, n: nat)
    requires n <= |es| && Nameable(es)
    ensures ApplyAll(c, DbcLines(es[..n])) == c.(ifaces := WithDbc(c.ifaces, es, n))
  {
    if n > 0 {
      hide OnIface;
      DbcLoaded(c, es, n - 1);
      assert es[..n][..n - 1] == es[..n - 1];
      var e := es[n - 1];
      if e.dbc == NOTHING {
        assert DbcLines(es[..n]) == DbcLines(es[..n - 1]);
      } else {
        ApplyConcat(c, DbcLines(es[..n - 1]), [CanDbc(e.name, e.dbc)]);
        ApplyOne(c.(ifaces := WithDbc(c.ifaces, es, n - 1)), CanDbc(e.name, e.dbc));
      }
    }
  }

  // ---------------------------------------------------------------- scalars

  /** Values the printer and the clamping loader leave alone. */
  ghost predicate InRange(c: Settings) {
    && Whole(c)
    && (forall k: NumKey :: LoadedNumber(k, SavedNumber(k, c.nums[k])) == c.nums[k])
    && c.texts[AiModel] != NOTHING && c.texts[AiNames] != NOTHING
    && |c.ifaces| <= MAX_IFACES
    && forall i :: 0 <= i < |c.ifaces| ==> |c.ifaces[i].filters| <= MAX_FILTERS
  }

  /** Which numbers that is, key by key. */
  lemma InRangeNumber(k: NumKey, v: int)
    ensures LoadedNumber(k, SavedNumber(k, v)) == v
            <==> Range(k).0 <= v <= Range(k).1 && (k.AiThreads? ==> v % 3 == 0)
  {
  }

  /** Keys printed so far are as saved, the others as at the start. */
  ghost predicate ScalarsUpTo(x: Settings, c: Settings, n: nat) {
    && Whole(x) && Whole(c)
    && (forall k: NumKey :: x.nums[k] == if Place(Num(k)) < n then c.nums[k] else StartNumber(k))
    && (forall k: TextKey :: x.texts[k] == if Place(Txt(k)) < n then c.texts[k] else StartText(k))
  }

  lemma PlaceDistinct(a: Key, b: Key)
    requires a != b
    ensures Place(a) != Place(b)
  {
    OrderIsComplete(0, a);
    OrderIsComplete(0, b);
    hide Place, KeyAt;
  }

  /** The n-th key as saved, all others as they were. */
  lemma ScalarsStep(x: Settings, y: Settings, c: Settings, n: nat, key: Key)
    requires ScalarsUpTo(x, c, n) && Whole(y) && Place(key) == n
    requires forall k: NumKey :: k in c.nums && k in x.nums && y.nums[k] == if key == Num(k) then c.nums[k] else x.nums[k]
    requires forall k: TextKey :: k in c.texts && k in x.texts && y.texts[k] == if key == Txt(k) then c.texts[k] else x.texts[k]
    ensures ScalarsUpTo(y, c, n + 1)
  {
    hide Place, StartNumber, StartText;
    forall k: NumKey | key != Num(k) ensures Place(Num(k)) != n { PlaceDistinct(Num(k), key); }
    forall k: TextKey | key != Txt(k) ensures Place(Txt(k)) != n { PlaceDistinct(Txt(k), key); }
  }

  lemma NumberLoaded(x: Settings, c: Settings, n: nat, num: NumKey)
    requires ScalarsUpTo(x, c, n) && InRange(c) && Place(Num(num)) == n
    ensures var y := Apply(x, Number(num, SavedNumber(num, c.nums[num])));
            ScalarsUpTo(y, c, n + 1) && y.ifaces == x.ifaces
  {
    hide Place, StartNumber, StartText, LoadedNumber, SavedNumber;
    assert LoadedNumber(num, SavedNumber(num, c.nums[num])) == c.nums[num];
    assert Whole(x) && Whole(c);
    hide ScalarsUpTo, InRange;
    ScalarsStep(x, Apply(x, Number(num, SavedNumber(num, c.nums[num]))), c, n, Num(num));
  }

  lemma TextLoaded(x: Settings, c: Settings, n: nat, t: TextKey)
    requires ScalarsUpTo(x, c, n) && InRange(c) && Place(Txt(t)) == n
    ensures var y := Apply(x, Text(t, c.texts[t]));
            ScalarsUpTo(y, c, n + 1) && y.ifaces == x.ifaces && (c.texts[t] == NOTHING ==> y == x)
  {
    hide StartNumber, Place;
    assert c.texts[t] == NOTHING ==> StartText(t) == NOTHING;
    hide InRange, StartText;
    assert c.texts[t] == NOTHING ==> x.texts[t] == c.texts[t];
    assert Whole(x) && Whole(c);
    hide ScalarsUpTo;
    ScalarsStep(x, Apply(x, Text(t, c.texts[t])), c, n, Txt(t));
  }

  lemma TextLine(c: Settings, t: TextKey)
    requires InRange(c)
    ensures KeyLines(c, Txt(t)) == [Text(t, c.texts[t])] || (KeyLines(c, Txt(t)) == [] && c.texts[t] == NOTHING)
  {
  }

  lemma KeyLoaded(x: Settings, c: Settings, n: nat)
    requires n < KEYS && ScalarsUpTo(x, c, n) && InRange(c)
    ensures var y := ApplyAll(x, KeyLines(c, KeyAt(n)));
            ScalarsUpTo(y, c, n + 1) && y.ifaces == x.ifaces
  {
    var k := KeyAt(n);
    OrderIsComplete(n, k);
    hide Place, KeyAt, Apply, ScalarsUpTo, InRange;
    assert Whole(c);
    match k
    case Num(num) =>
      NumberLoaded(x, c, n, num);
      ApplyOne(x, Number(num, SavedNumber(num, c.nums[num])));
    case Txt(t) =>
      TextLoaded(x, c, n, t);
      TextLine(c, t);
      ApplyOne(x, Text(t, c.texts[t]));
  }

  lemma {:induction false} ScalarsPrinted(x: Settings, c: Settings, n: nat)
    requires n <= KEYS && ScalarsUpTo(x, c, 0) && InRange(c) && Whole(c)
    ensures var y := ApplyAll(x, ScalarLines(c, n));
            ScalarsUpTo(y, c, n) && y.ifaces == x.ifaces
  {
    hide Apply, KeyLines, ScalarsUpTo, InRange, KeyAt;
    if n > 0 {
      ScalarsPrinted(x, c, n - 1);
      var y := ApplyAll(x, ScalarLines(c, n - 1));
      KeyLoaded(y, c, n - 1);
      ApplyConcat(x, ScalarLines(c, n - 1), KeyLines(c, KeyAt(n - 1)));
    }
  }

  // ---------------------------------------------------------------- round trip

  /** What loading makes of a saved configuration: everything as saved, except for interfaces that share a name. */
  lemma LoadOfSave(c: Settings)
    requires InRange(c) && Whole(c) && Nameable(c.ifaces)
    ensures Load(Save(c)) == c.(ifaces := WithDbc(Merged(c.ifaces, |c.ifaces|), c.ifaces, |c.ifaces|))
  {
    var es := c.ifaces;
    assert |es| <= MAX_IFACES;
    var c1 := Start().(ifaces := Blanks(es));
    var c2 := c1.(ifaces := Merged(es, |es|));
    var c3 := ApplyAll(c2, ScalarLines(c, KEYS));
    assert ScalarsUpTo(c2, c, 0) by { StartWhole(); }
    assert es[..|es|] == es;
    hide Apply, ApplyAll, InRange, Merged, WithDbc, NameLines, AllIfaceLines, ScalarLines, DbcLines;
    NamesLoaded(Start(), es);
    IfacesLoaded(c1, es, |es|);
    ScalarsPrinted(c2, c, KEYS);
    DbcLoaded(c3, es, |es|);
    ApplyConcat(Start(), NameLines(es), AllIfaceLines(es));
    ApplyConcat(Start(), NameLines(es) + AllIfaceLines(es), ScalarLines(c, KEYS));
    ApplyConcat(Start(), NameLines(es) + AllIfaceLines(es) + ScalarLines(c, KEYS), DbcLines(es));
    var y := c3.(ifaces := WithDbc(c3.ifaces, es, |es|));
    assert ApplyAll(Start(), Save(c)) == y;
    ScalarsDone(c3, c);
    CompletedSame(y, c);
  }

  lemma ScalarsDone(x: Settings, c: Settings)
    requires ScalarsUpTo(x, c, KEYS)
    ensures x.nums == c.nums && x.texts == c.texts
  {
    forall k: NumKey ensures x.nums[k] == c.nums[k] { OrderIsComplete(0, Num(k)); }
    forall k: TextKey ensures x.texts[k] == c.texts[k] { OrderIsComplete(0, Txt(k)); }
    hide Place;
  }

  /** In range, nothing falls back to a default. */
  lemma CompletedSame(y: Settings, c: Settings)
    requires InRange(c) && Whole(y) && y.nums == c.nums
    ensures Completed(y) == y
  {
    InRangeNumber(TcpPort, c.nums[TcpPort]);
    InRangeNumber(MaxClients, c.nums[MaxClients]);
    InRangeNumber(VideoWidth, c.nums[VideoWidth]);
    InRangeNumber(VideoHeight, c.nums[VideoHeight]);
    InRangeNumber(VideoBitratePpx, c.nums[VideoBitratePpx]);
  }

  ghost predicate DistinctNames(es: seq<Iface>) {
    forall i, j :: 0 <= i < j < |es| ==> es[i].name != es[j].name
  }

  /** Interfaces that share a name survive only if they say nothing that could be confused. */
  ghost predicate Benign(es: seq<Iface>) {
    forall i, j :: 0 <= i < j < |es| && es[i].name == es[j].name ==> es[j] == Blank(es[j].name) && Quiet(es[i])
  }

  predicate Quiet(e: Iface) { e.bitrate == 0 && e.dbitrate == 0 && !e.fd && !e.up }

  /** One entry's lines change the first entry of its name. */
  lemma MergedStep(es: seq<Iface>, n: nat, i: nat)
    requires 0 < n <= |es| && i < |es|
    ensures IndexOf(es, es[n - 1].name) < n
    ensures Merged(es, n)[i] == if i == IndexOf(es, es[n - 1].name) then Merge(Merged(es, n - 1)[i], es[n - 1])
                                else Merged(es, n - 1)[i]
  {
    hide Merge;
    IndexFound(Merged(es, n - 1), es, n - 1);
  }

  lemma DbcStep(s: seq<Iface>, es: seq<Iface>, n: nat, i: nat)
    requires 0 < n <= |es| == |s| && i < |es| && forall k :: 0 <= k < |s| ==> s[k].name == es[k].name
    ensures WithDbc(s, es, n)[i]
         == if es[n - 1].dbc != NOTHING && i == IndexOf(es, es[n - 1].name)
            then WithDbc(s, es, n - 1)[i].(dbc := es[n - 1].dbc) else WithDbc(s, es, n - 1)[i]
  {
    hide IndexOf;
    IndexFound(WithDbc(s, es, n - 1), es, n - 1);
  }

  /** The first entry of a name is not behind another of that name. */
  lemma NotLater(es: seq<Iface>, name: Word, i: nat, j: nat)
    requires i < j < |es| && es[i].name == es[j].name
    ensures IndexOf(es, name) != j
  {
    if es[j].name == name {
      IndexIsFirst(es, name, i);
    }
  }

  /** An entry behind another of the same name is never written to. */
  lemma {:induction false} LaterStaysBlank(es: seq<Iface>, n: nat, i: nat, j: nat)
    requires n <= |es| && i < j < |es| && es[i].name == es[j].name
    ensures Merged(es, n)[j] == Blank(es[j].name)
  {
    if n > 0 {
      hide Merged, Merge, IndexOf, Blank;
      LaterStaysBlank(es, n - 1, i, j);
      MergedStep(es, n, j);
      if es[n - 1].name == es[i].name {
        NotLater(es, es[n - 1].name, i, j);
      }
    }
  }

  lemma {:induction false} DbcStaysBlank(s: seq<Iface>, es: seq<Iface>, n: nat, i: nat, j: nat)
    requires n <= |es| == |s| && (forall k :: 0 <= k < |s| ==> s[k].name == es[k].name)
    requires i < j < |es| && es[i].name == es[j].name
    ensures WithDbc(s, es, n)[j] == s[j]
  {
    if n > 0 {
      hide WithDbc, IndexOf;
      DbcStaysBlank(s, es, n - 1, i, j);
      DbcStep(s, es, n, j);
      NotLater(es, es[n - 1].name, i, j);
    }
  }

  lemma QuietAside(e: Iface, path: Word)
    ensures Quiet(e.(dbc := path)) == Quiet(e)
  {
  }

  lemma {:induction false} DbcKeepsScalars(s: seq<Iface>, es: seq<Iface>, n: nat, i: nat)
    requires n <= |es| == |s| && (forall k :: 0 <= k < |s| ==> s[k].name == es[k].name) && i < |s|
    ensures Quiet(WithDbc(s, es, n)[i]) <==> Quiet(s[i])
  {
    if n > 0 {
      hide WithDbc, IndexOf, Quiet;
      QuietAside(WithDbc(s, es, n - 1)[i], es[n - 1].dbc);
      DbcKeepsScalars(s, es, n - 1, i);
      DbcStep(s, es, n, i);
    }
  }

  /** After a blank entry of the same name, the first one is quiet and stays so. */
  lemma {:induction false} FirstIsQuieted(es: seq<Iface>, n: nat, i: nat, j: nat)
    requires i < j < n <= |es| && es[i].name == es[j].name && IndexOf(es, es[i].name) == i
    requires forall k :: i < k < |es| && es[k].name == es[i].name ==> es[k] == Blank(es[k].name)
    ensures Quiet(Merged(es, n)[i])
  {
    hide Merged, IndexOf, AddAll;
    if j < n - 1 {
      FirstIsQuieted(es, n - 1, i, j);
    }
    MergedStep(es, n, i);
    if es[n - 1].name == es[i].name {
      assert es[n - 1] == Blank(es[n - 1].name);
    } else {
      FirstHasName(es, es[n - 1].name);
    }
  }

  /** What an entry should be after the settings lines of the first n entries. */
  function Settled(es: seq<Iface>, n: nat, i: nat): Iface
    requires i < |es|
  {
    if i < n then es[i].(dbc := NOTHING) else Blank(es[i].name)
  }

  ghost predicate FiltersFit(es: seq<Iface>) {
    forall k :: 0 <= k < |es| ==> |es[k].filters| <= MAX_FILTERS
  }

  lemma SettledStep(es: seq<Iface>, n: nat, i: nat)
    requires Benign(es) && 0 < n <= |es| && i < |es| && FiltersFit(es)
    ensures (if i == IndexOf(es, es[n - 1].name) then Merge(Settled(es, n - 1, i), es[n - 1]) else Settled(es, n - 1, i))
         == Settled(es, n, i)
  {
    hide Merge, IndexOf, Quiet, Blank, Benign;
    var e := es[n - 1];
    if i == IndexOf(es, e.name) {
      var _ := FirstOf(es, n - 1);
      if i == n - 1 {
        MergeIntoBlank(e);
      } else {
        FirstHasName(es, e.name);
        RepeatedIsBlank(es, n - 1);
        RepeatedIsQuiet(es, i, n - 1);
        QuietWithoutDbc(es[i]);
        MergeOfBlank(es[i].(dbc := NOTHING), e);
      }
    } else if i == n - 1 {
      RepeatedIsBlank(es, i);
      BlankHasNoDbc(es[i]);
    }
  }

  lemma BlankHasNoDbc(e: Iface)
    requires e == Blank(e.name)
    ensures e.(dbc := NOTHING) == e
  {
  }

  lemma RepeatedIsQuiet(es: seq<Iface>, i: nat, j: nat)
    requires Benign(es) && i < j < |es| && es[i].name == es[j].name
    ensures Quiet(es[i])
  {
    hide Quiet, Blank;
  }

  /** Without harmful duplicates each entry's lines reach that entry. */
  lemma {:induction false} BenignMerged(es: seq<Iface>, n: nat, i: nat)
    requires Benign(es) && n <= |es| && i < |es| && FiltersFit(es)
    ensures Merged(es, n)[i] == Settled(es, n, i)
  {
    hide *;
    if n == 0 {
      NothingMerged(es, i);
    } else {
      BenignMerged(es, n - 1, i);
      MergedStep(es, n, i);
      SettledStep(es, n, i);
    }
  }

  lemma NothingMerged(es: seq<Iface>, i: nat)
    requires i < |es|
    ensures Merged(es, 0)[i] == Settled(es, 0, i)
  {
  }

  lemma QuietWithoutDbc(e: Iface)
    requires Quiet(e)
    ensures Quiet(e.(dbc := NOTHING))
  {
  }

  /** An entry that is not the first of its name carries nothing. */
  lemma RepeatedIsBlank(es: seq<Iface>, k: nat)
    requires Benign(es) && k < |es|
    ensures IndexOf(es, es[k].name) != k ==> es[k] == Blank(es[k].name)
  {
    hide IndexOf, Quiet, Blank;
    var f := FirstOf(es, k);
    assert es[f].name == es[k].name;
  }

  lemma FirstHasName(es: seq<Iface>, name: Word)
    ensures IndexOf(es, name) < |es| ==> es[IndexOf(es, name)].name == name
  {
  }

  lemma MergeIntoBlank(e: Iface)
    requires |e.filters| <= MAX_FILTERS
    ensures Merge(Blank(e.name), e) == e.(dbc := NOTHING)
  {
    AddAllFits([], e.filters);
    assert [] + e.filters == e.filters;
  }

  lemma MergeOfBlank(s: Iface, e: Iface)
    requires Quiet(s) && e == Blank(e.name)
    ensures Merge(s, e) == s
  {
  }

  function Named(es: seq<Iface>, n: nat, i: nat): Iface
    requires i < |es|
  {
    if i < n then es[i] else es[i].(dbc := NOTHING)
  }

  lemma {:induction false} BenignDbc(s: seq<Iface>, es: seq<Iface>, n: nat, i: nat)
    requires Benign(es) && n <= |es| == |s| && i < |es|
    requires forall k :: 0 <= k < |es| ==> s[k] == es[k].(dbc := NOTHING)
    ensures WithDbc(s, es, n)[i] == Named(es, n, i)
  {
    hide *;
    if n == 0 {
      NothingNamed(s, es, i);
    } else {
      BenignDbc(s, es, n - 1, i);
      DbcStep(s, es, n, i);
      NamedStep(es, n, i);
    }
  }

  lemma NothingNamed(s: seq<Iface>, es: seq<Iface>, i: nat)
    requires i < |es| == |s| && s[i] == es[i].(dbc := NOTHING)
    ensures WithDbc(s, es, 0)[i] == Named(es, 0, i)
  {
  }

  lemma NamedStep(es: seq<Iface>, n: nat, i: nat)
    requires Benign(es) && 0 < n <= |es| && i < |es|
    ensures (if es[n - 1].dbc != NOTHING && i == IndexOf(es, es[n - 1].name)
             then Named(es, n - 1, i).(dbc := es[n - 1].dbc) else Named(es, n - 1, i))
         == Named(es, n, i)
  {
    hide IndexOf, Benign;
    NamedIsFirst(es, n - 1);
  }

  /** An entry with a database path is the first of its name. */
  lemma NamedIsFirst(es: seq<Iface>, k: nat)
    requires Benign(es) && k < |es|
    ensures es[k].dbc != NOTHING ==> IndexOf(es, es[k].name) == k
  {
    hide IndexOf, Benign;
    RepeatedIsBlank(es, k);
  }

  lemma FirstOf(es: seq<Iface>, i: nat) returns (f: nat)
    requires i < |es|
    ensures f <= i && f == IndexOf(es, es[i].name) && es[f].name == es[i].name
  {
    IndexFound(es, es, i);
    f := IndexOf(es, es[i].name);
  }

  /** Only name lines add interfaces. */
  lemma {:induction false} CountKept(c: Settings, lines: seq<Line>)
    requires forall i :: 0 <= i < |lines| ==> !lines[i].CanIfname?
    ensures |ApplyAll(c, lines).ifaces| == |c.ifaces|
  {
    if lines != [] {
      CountKept(c, lines[..|lines| - 1]);
    }
  }

  lemma {:induction false} NamesCounted(c: Settings, es: seq<Iface>)
    ensures var n := |ApplyAll(c, NameLines(es)).ifaces|;
            n <= |c.ifaces| + |es| && (!Nameable(es) ==> n < |c.ifaces| + |es|)
  {
    if es != [] {
      var m := |es| - 1;
      NamesCounted(c, es[..m]);
      ApplyConcat(c, NameLines(es[..m]), [CanIfname(es[m].name)]);
      ApplyOne(ApplyAll(c, NameLines(es[..m])), CanIfname(es[m].name));
      assert !Nameable(es) ==> !Nameable(es[..m]) || es[m].name == NOTHING;
    }
  }

  lemma {:induction false} FiltersNameNone(name: Word, fs: seq<Filter>)
    ensures forall l :: l in FilterLines(name, fs) ==> !l.CanIfname?
  {
    if fs != [] {
      FiltersNameNone(name, fs[..|fs| - 1]);
    }
  }

  lemma {:induction false} IfacesNameNone(es: seq<Iface>)
    ensures forall l :: l in AllIfaceLines(es) ==> !l.CanIfname?
  {
    if es != [] {
      IfacesNameNone(es[..|es| - 1]);
      FiltersNameNone(es[|es| - 1].name, es[|es| - 1].filters);
    }
  }

  lemma {:induction false} ScalarsNameNone(c: Settings, n: nat)
    requires Whole(c) && n <= KEYS
    ensures forall l :: l in ScalarLines(c, n) ==> !l.CanIfname?
  {
    hide KeyAt;
    if n > 0 {
      ScalarsNameNone(c, n - 1);
    }
  }

  lemma {:induction false} DbcsNameNone(es: seq<Iface>)
    ensures forall l :: l in DbcLines(es) ==> !l.CanIfname?
  {
    if es != [] {
      DbcsNameNone(es[..|es| - 1]);
    }
  }

  /** An interface without a name is lost. */
  lemma NamelessLost(c: Settings)
    requires Whole(c) && !Nameable(c.ifaces)
    ensures |Load(Save(c)).ifaces| < |c.ifaces|
  {
    var es := c.ifaces;
    var names, settings, scalars, dbcs := NameLines(es), AllIfaceLines(es), ScalarLines(c, KEYS), DbcLines(es);
    var start := Start();
    assert start.ifaces == [];
    NamesCounted(start, es);
    IfacesNameNone(es);
    ScalarsNameNone(c, KEYS);
    DbcsNameNone(es);
    hide Apply, ApplyAll, NameLines, AllIfaceLines, ScalarLines, DbcLines, Start, Nameable;
    ApplyConcat(start, names, settings + scalars + dbcs);
    assert Save(c) == names + (settings + scalars + dbcs);
    CountKept(ApplyAll(start, names), settings + scalars + dbcs);
  }

  /**
   * Loading what was saved rebuilds a configuration in range if and only if every interface has a
   * name and no two share one, apart from repetitions that carry no settings at all.
   */
  lemma SaveLoadIff(c: Settings)
    requires InRange(c) && Whole(c)
    ensures Load(Save(c)) == c <==> Nameable(c.ifaces) && Benign(c.ifaces)
  {
    if !Nameable(c.ifaces) {
      NamelessLost(c);
    } else {
      NamedSaveLoadIff(c);
    }
  }

  lemma NamedSaveLoadIff(c: Settings)
    requires InRange(c) && Whole(c) && Nameable(c.ifaces)
    ensures Load(Save(c)) == c <==> Benign(c.ifaces)
  {
    var es := c.ifaces;
    var m := Merged(es, |es|);
    var r := WithDbc(m, es, |es|);
    LoadOfSave(c);
    if Benign(es) {
      assert FiltersFit(es);
      forall i | 0 <= i < |es| ensures m[i] == es[i].(dbc := NOTHING) { BenignMerged(es, |es|, i); }
      forall i | 0 <= i < |es| ensures r[i] == es[i] { BenignDbc(m, es, |es|, i); }
      assert r == es;
    }
    hide Load, Save, Merged, WithDbc, InRange;
    if r == es {
      forall i, j | 0 <= i < j < |es| && es[i].name == es[j].name
        ensures es[j] == Blank(es[j].name) && Quiet(es[i])
      {
        DuplicateIsBlank(es, i, j);
        var f := FirstOf(es, i);
        if f < i {
          DuplicateIsBlank(es, f, i);
        } else {
          forall k | i < k < |es| && es[k].name == es[i].name ensures es[k] == Blank(es[k].name) {
            DuplicateIsBlank(es, i, k);
          }
          FirstIsQuieted(es, |es|, i, j);
          DbcKeepsScalars(m, es, |es|, i);
        }
      }
    }
  }

  lemma DuplicateIsBlank(es: seq<Iface>, i: nat, j: nat)
    requires i < j < |es| && es[i].name == es[j].name
    requires WithDbc(Merged(es, |es|), es, |es|) == es
    ensures es[j] == Blank(es[j].name)
  {
    hide Merged, WithDbc, Blank;
    LaterStaysBlank(es, |es|, i, j);
    DbcStaysBlank(Merged(es, |es|), es, |es|, i, j);
  }

  /** In particular every configuration in range whose interfaces have distinct names survives. */
  lemma SaveLoad(c: Settings)
    requires InRange(c) && Whole(c) && Nameable(c.ifaces) && DistinctNames(c.ifaces)
    ensures Load(Save(c)) == c
  {
    hide Load, Save, InRange;
    SaveLoadIff(c);
  }

  /** A configuration in range. */
  function Usual(ifaces: seq<Iface>): Settings {
    Start().(ifaces := ifaces, nums := Start().nums[TcpPort := 6666][MaxClients := 16])
  }

  lemma UsualInRange(ifaces: seq<Iface>)
    requires |ifaces| <= MAX_IFACES && forall i :: 0 <= i < |ifaces| ==> |ifaces[i].filters| <= MAX_FILTERS
    ensures InRange(Usual(ifaces)) && Whole(Usual(ifaces))
  {
    StartWhole();
    forall k: NumKey ensures LoadedNumber(k, SavedNumber(k, Usual(ifaces).nums[k])) == Usual(ifaces).nums[k] {
      InRangeNumber(k, Usual(ifaces).nums[k]);
    }
  }

  /** One that does not survive: two entries of one name, each with a bitrate. */
  lemma TwoBitrates(name: Word)
    requires name != NOTHING
    ensures var c := Usual([Blank(name).(bitrate := 500000), Blank(name).(bitrate := 250000)]);
            InRange(c) && Whole(c) && Load(Save(c)) != c
  {
    var es := [Blank(name).(bitrate := 500000), Blank(name).(bitrate := 250000)];
    UsualInRange(es);
    assert es[0].name == es[1].name && es[1] != Blank(name);
    hide InRange, Load, Save;
    SaveLoadIff(Usual(es));
  }

  // ---------------------------------------------------------------- what loading any file gives

  function Distance(x: int, y: int): nat { if x < y then y - x else x - y }

  /** A number out of range becomes the nearest in range. */
  lemma ClampedNearest(k: NumKey, v: int, x: int)
    ensures Range(k).0 <= Clamped(k, v) <= Range(k).1
    ensures Range(k).0 <= x <= Range(k).1 ==> Distance(v, Clamped(k, v)) <= Distance(v, x)
  {
  }

  /** In range, or not set yet where a default follows. */
  predicate NumberFits(k: NumKey, v: int) {
    var (lo, hi) := Range(k);
    (lo <= v <= hi || (v == 0 && (k.TcpPort? || k.MaxClients?))) && (k.AiThreads? ==> v % 3 == 0)
  }

  predicate IfaceFits(e: Iface) { e.name != NOTHING && |e.filters| <= 16 }

  ghost predicate FileFits(c: Settings) {
    && Whole(c) && |c.ifaces| <= 8
    && (forall k :: NumberFits(k, c.nums[k])) && (forall i :: 0 <= i < |c.ifaces| ==> IfaceFits(c.ifaces[i]))
  }

  lemma LoadedFits(k: NumKey, v: int)
    ensures NumberFits(k, LoadedNumber(k, v))
  {
  }

  lemma ApplyFits(c: Settings, l: Line)
    requires FileFits(c)
    ensures FileFits(Apply(c, l))
  {
    if l.Number? { LoadedFits(l.num, l.value); }
    hide LoadedNumber, NumberFits;
  }

  lemma {:induction false} ApplyAllFits(c: Settings, lines: seq<Line>)
    requires FileFits(c)
    ensures FileFits(ApplyAll(c, lines))
  {
    if lines != [] {
      ApplyAllFits(c, lines[..|lines| - 1]);
      ApplyFits(ApplyAll(c, lines[..|lines| - 1]), lines[|lines| - 1]);
      hide Apply, FileFits;
    }
  }

  /**
   * Whatever the file says, after loading every number is in its range, the number of inference threads
   * is a multiple of three, and there are at most 8 interfaces, named, with at most 16 filters each.
   */
  lemma LoadAlwaysInRange(lines: seq<Line>, k: NumKey, i: nat)
    ensures var c := Load(lines);
            && k in c.nums && Range(k).0 <= c.nums[k] <= Range(k).1 && (k.AiThreads? ==> c.nums[k] % 3 == 0)
            && |c.ifaces| <= 8
            && (i < |c.ifaces| ==> c.ifaces[i].name != NOTHING && |c.ifaces[i].filters| <= 16)
  {
    StartWhole();
    assert FileFits(Start()) by { forall k ensures NumberFits(k, Start().nums[k]) { StartFits(k); } }
    ApplyAllFits(Start(), lines);
    hide ApplyAll, Start, StartNumber, ALL_NUMS, ALL_TEXTS;
    assert NumberFits(k, ApplyAll(Start(), lines).nums[k]);
  }

  lemma StartFits(k: NumKey)
    ensures NumberFits(k, StartNumber(k))
  {
  }

  lemma {:induction false} NumberStays(c: Settings, k: NumKey, lines: seq<Line>)
    requires Whole(c) && forall i :: 0 <= i < |lines| ==> !(lines[i].Number? && lines[i].num == k)
    ensures Whole(ApplyAll(c, lines)) && ApplyAll(c, lines).nums[k] == c.nums[k]
  {
    if lines != [] {
      NumberStays(c, k, lines[..|lines| - 1]);
    }
  }

  /** Of several lines for one number the last one counts. */
  lemma LastNumberCounts(c: Settings, before: seq<Line>, k: NumKey, v: int, after: seq<Line>)
    requires Whole(c) && forall i :: 0 <= i < |after| ==> !(after[i].Number? && after[i].num == k)
    ensures var r := ApplyAll(c, before + [Number(k, v)] + after);
            k in r.nums && r.nums[k] == LoadedNumber(k, v)
  {
    ApplyConcat(c, before + [Number(k, v)], after);
    ApplyConcat(c, before, [Number(k, v)]);
    ApplyAllWhole(c, before);
    var b := ApplyAll(c, before);
    ApplyOne(b, Number(k, v));
    hide ApplyAll, LoadedNumber;
    NumberStays(Apply(b, Number(k, v)), k, after);
  }
}
