/** The configuration object in place: the loader folds lines into it, the saver prints it field by field. */
module ConfigImpl {
  import opened Config

  class AppConfig {
    const ifaces: array<Iface>
    var count: nat
    var nums: map<NumKey, int>
    var texts: map<TextKey, Word>

    ghost predicate Valid()
      reads this
    {
      ifaces.Length == MAX_IFACES && count <= MAX_IFACES
    }

    ghost function Value(): Settings
      requires Valid()
      reads this, ifaces
    {
      Settings(ifaces[..count], nums, texts)
    }

    constructor ()
      ensures Valid() && fresh(ifaces) && Value() == Start()
    {
      ifaces := new Iface[MAX_IFACES](_ => Blank(NOTHING));
      count := 0;
      nums := Start().nums;
      texts := Start().texts;
    }

    // ---------------------------------------------------------------- loading

    method FindIface(name: Word) returns (i: nat)
      requires Valid()
      ensures i == IndexOf(ifaces[..count], name)
    {
      i := 0;
      while i < count && ifaces[i].name != name
        invariant i <= count
        invariant IndexOf(ifaces[..count], name) == i + IndexOf(ifaces[..count][i..], name)
      {
        assert ifaces[..count][i..][1..] == ifaces[..count][i + 1..];
        i := i + 1;
      }
      assert i < count ==> ifaces[..count][i..][0] == ifaces[i];
    }

    /** A line that sets something on the interface it names. */
    method LoadIfaceLine(l: Line)
      requires Valid() && !l.Number? && !l.Text? && !l.CanIfname?
      modifies ifaces
      ensures Valid() && Value() == Apply(old(Value()), l)
    {
      hide IndexOf;
      var i := FindIface(l.name);
      if l.name == NOTHING || i >= count {
        return;
      }
      match l
      case CanBitrate(_, rate) => ifaces[i] := ifaces[i].(bitrate := rate);
      case CanDbitrate(_, rate) => ifaces[i] := ifaces[i].(dbitrate := rate);
      case CanFd(_, on) => ifaces[i] := ifaces[i].(fd := on);
      case CanUp(_, on) => ifaces[i] := ifaces[i].(up := on);
      case CanDbc(_, path) =>
        if path != NOTHING {
          ifaces[i] := ifaces[i].(dbc := path);
        }
      case CanFilter(_, f) =>
        if |ifaces[i].filters| < MAX_FILTERS {
          ifaces[i] := ifaces[i].(filters := ifaces[i].filters + [f]);
        }
    }

    method LoadLine(l: Line)
      requires Valid()
      modifies this, ifaces
      ensures Valid() && Value() == Apply(old(Value()), l)
    {
      match l
      case CanIfname(name) =>
        if name != NOTHING && count < MAX_IFACES {
          ifaces[count] := Blank(name);
          count := count + 1;
        }
      case Number(k, v) => nums := nums[k := LoadedNumber(k, v)];
      case Text(k, words) =>
        if words != NOTHING {
          texts := texts[k := words];
        }
      case _ => LoadIfaceLine(l);
    }

    method FallBack(k: NumKey, default: int)
      requires Valid() && k in nums
      modifies `nums
      ensures Valid() && nums == if old(nums)[k] <= 0 then old(nums)[k := default] else old(nums)
    {
      if nums[k] <= 0 {
        nums := nums[k := default];
      }
    }

    /** Reads a whole file into a new object. */
    method LoadFile(lines: seq<Line>)
      requires Valid() && Value() == Start()
      modifies this, ifaces
      ensures Valid() && Value() == Load(lines)
    {
      for i := 0 to |lines|
        invariant Valid() && Value() == ApplyAll(Start(), lines[..i])
      {
        assert lines[..i + 1][..i] == lines[..i];
        LoadLine(lines[i]);
      }
      assert lines[..|lines|] == lines;
      StartWhole();
      ApplyAllWhole(Start(), lines);
      hide ApplyAll, Start;
      FallBack(TcpPort, 6666);
      FallBack(MaxClients, 16);
      FallBack(VideoWidth, 640);
      FallBack(VideoHeight, 480);
      FallBack(VideoBitratePpx, 175);
    }

    // ---------------------------------------------------------------- saving

    method PrintNames() returns (lines: seq<Line>)
      requires Valid()
      ensures lines == NameLines(ifaces[..count])
    {
      lines := [];
      for i := 0 to count
        invariant lines == NameLines(ifaces[..i])
      {
        assert ifaces[..i + 1][..i] == ifaces[..i];
        lines := lines + [CanIfname(ifaces[i].name)];
      }
    }

    static method PrintFilters(e: Iface) returns (lines: seq<Line>)
      ensures lines == FilterLines(e.name, e.filters)
    {
      lines := [];
      for k := 0 to |e.filters|
        invariant lines == FilterLines(e.name, e.filters[..k])
      {
        assert e.filters[..k + 1][..k] == e.filters[..k];
        lines := lines + [CanFilter(e.name, e.filters[k])];
      }
      assert e.filters[..|e.filters|] == e.filters;
    }

    method PrintIfaces() returns (lines: seq<Line>)
      requires Valid()
      ensures lines == AllIfaceLines(ifaces[..count])
    {
      hide FilterLines;
      lines := [];
      for i := 0 to count
        invariant lines == AllIfaceLines(ifaces[..i])
      {
        assert ifaces[..i + 1][..i] == ifaces[..i];
        var e := ifaces[i];
        var filters := PrintFilters(e);
        lines := lines + ([CanBitrate(e.name, e.bitrate), CanFd(e.name, e.fd),
                           CanDbitrate(e.name, e.dbitrate), CanUp(e.name, e.up)] + filters);
      }
    }

    method PrintScalars() returns (lines: seq<Line>)
      requires Valid() && Whole(Value())
      ensures lines == ScalarLines(Value(), KEYS)
    {
      hide KeyAt, SavedNumber;
      lines := [];
      for n := 0 to KEYS
        invariant lines == ScalarLines(Value(), n)
      {
        match KeyAt(n) {
          case Num(k) =>
            lines := lines + [Number(k, SavedNumber(k, nums[k]))];
          case Txt(t) =>
            if (t == AiModel || t == AiNames) && texts[t] == NOTHING {
              lines := lines + [Text(t, StartText(t))];
            } else if t == VideoDevice || texts[t] != NOTHING {
              lines := lines + [Text(t, texts[t])];
            }
        }
      }
    }

    method PrintDbcs() returns (lines: seq<Line>)
      requires Valid()
      ensures lines == DbcLines(ifaces[..count])
    {
      lines := [];
      for i := 0 to count
        invariant lines == DbcLines(ifaces[..i])
      {
        assert ifaces[..i + 1][..i] == ifaces[..i];
        if ifaces[i].dbc != NOTHING {
          lines := lines + [CanDbc(ifaces[i].name, ifaces[i].dbc)];
        }
      }
    }

    method SaveFile() returns (lines: seq<Line>)
      requires Valid() && Whole(Value())
      ensures lines == Save(Value())
    {
      hide NameLines, AllIfaceLines, ScalarLines, DbcLines;
      var names := PrintNames();
      var settings := PrintIfaces();
      var scalars := PrintScalars();
      var dbcs := PrintDbcs();
      lines := names + settings + scalars + dbcs;
    }
  }
}
