/** Sensor readings packed as channel, type and value: two parsers of the same bytes, and the writer. */
module CayenneLpp {
  import opened Prelude
  import opened BufferReader

  datatype Value =
    | Int(n: int)
    | Dec(number: real)
    | Flag(on: bool)
    | Triple(x: real, y: real, z: real)
    | Rgb(red: int, green: int, blue: int)
    | Place(latitude: real, longitude: real, altitude: real)
    | Track(size: int, data: seq<byte>)

  /** What reading a value comes to. */
  datatype Outcome = Read(value: Value, next: nat) | TooShort | UnknownType

  /** Where reading goes on lies behind where it began, inside the bytes. */
  predicate Inside(o: Outcome, b: seq<byte>, pos: nat) {
    o.Read? ==> pos <= o.next <= |b|
  }

  // ----- kinds of values

  function Whole(g: Got<int>): Outcome {
    if g.Short? then TooShort else Read(Int(g.value), g.next)
  }

  function Scaled(g: Got<int>, unit: real): Outcome
    requires unit != 0.0
  {
    if g.Short? then TooShort else Read(Dec(g.value as real / unit), g.next)
  }

  function NonZero(g: Got<int>): Outcome {
    if g.Short? then TooShort else Read(Flag(g.value != 0), g.next)
  }

  function AxesAt(b: seq<byte>, pos: nat, unit: real): Outcome
    requires unit != 0.0
  {
    var x := SignedAt(b, pos, 2);
    if x.Short? then TooShort else
      var y := SignedAt(b, x.next, 2);
      if y.Short? then TooShort else
        var z := SignedAt(b, y.next, 2);
        if z.Short? then TooShort
        else Read(Triple(x.value as real / unit, y.value as real / unit, z.value as real / unit), z.next)
  }

  function ColourAt(b: seq<byte>, pos: nat): Outcome {
    var x := UnsignedAt(b, pos, 1);
    if x.Short? then TooShort else
      var y := UnsignedAt(b, x.next, 1);
      if y.Short? then TooShort else
        var z := UnsignedAt(b, y.next, 1);
        if z.Short? then TooShort else Read(Rgb(x.value, y.value, z.value), z.next)
  }

  function GpsAt(b: seq<byte>, pos: nat): Outcome {
    var x := SignedAt(b, pos, 3);
    if x.Short? then TooShort else
      var y := SignedAt(b, x.next, 3);
      if y.Short? then TooShort else
        var z := SignedAt(b, y.next, 3);
        if z.Short? then TooShort
        else Read(Place(x.value as real / 10000.0, y.value as real / 10000.0, z.value as real / 100.0), z.next)
  }

  /** The declared size counts itself; what is missing of it is left out. */
  function PolylineAt(b: seq<byte>, pos: nat): Outcome {
    var size := UnsignedAt(b, pos, 1);
    if size.Short? then TooShort else
      var n := Min(if 0 < size.value then size.value - 1 else 0, |b| - size.next);
      Read(Track(size.value, b[size.next..size.next + n]), size.next + n)
  }

  // ----- the two switches

  /** The value of a type, as the list of readings has it. */
  function ListedValue(b: seq<byte>, pos: nat, kind: byte): (o: Outcome)
    ensures Inside(o, b, pos)
  {
    match kind
    case 0 => Whole(UnsignedAt(b, pos, 1))
    case 1 => Whole(UnsignedAt(b, pos, 1))
    case 2 => Scaled(SignedAt(b, pos, 2), 100.0)
    case 3 => Scaled(SignedAt(b, pos, 2), 100.0)
    case 100 => Whole(UnsignedAt(b, pos, 4))
    case 101 => Whole(UnsignedAt(b, pos, 2))
    case 102 => Whole(UnsignedAt(b, pos, 1))
    case 103 => Scaled(SignedAt(b, pos, 2), 10.0)
    case 104 => Scaled(UnsignedAt(b, pos, 1), 2.0)
    case 113 => AxesAt(b, pos, 1000.0)
    case 115 => Scaled(UnsignedAt(b, pos, 2), 10.0)
    case 121 => Whole(SignedAt(b, pos, 2))
    case 116 => Scaled(SignedAt(b, pos, 2), 100.0)
    case 117 => Scaled(SignedAt(b, pos, 2), 1000.0)
    case 118 => Whole(UnsignedAt(b, pos, 4))
    case 120 => Whole(UnsignedAt(b, pos, 1))
    case 125 => Whole(UnsignedAt(b, pos, 2))
    case 128 => Whole(UnsignedAt(b, pos, 2))
    case 130 => Scaled(UnsignedAt(b, pos, 4), 1000.0)
    case 131 => Scaled(UnsignedAt(b, pos, 4), 1000.0)
    case 132 => Whole(UnsignedAt(b, pos, 2))
    case 133 => Whole(UnsignedAt(b, pos, 4))
    case 134 => AxesAt(b, pos, 100.0)
    case 135 => ColourAt(b, pos)
    case 136 => GpsAt(b, pos)
    case 142 => Whole(UnsignedAt(b, pos, 1))
    case 240 => PolylineAt(b, pos)
    case _ => UnknownType
  }

  /** The names of the values of a channel. */
  datatype Field =
    | DigitalInput | DigitalOutput | AnalogInput | AnalogOutput | Generic | Luminosity | Presence | Temperature | Humidity
    | Accelerometer | Pressure | Altitude | Voltage | Current | Frequency | Percentage | Concentration | Power
    | Distance | Energy | Direction | Time | Gyrometer | Colour | Gps | Switch | Polyline

  function TypeOf(f: Field): byte {
    match f
    case DigitalInput => 0
    case DigitalOutput => 1
    case AnalogInput => 2
    case AnalogOutput => 3
    case Generic => 100
    case Luminosity => 101
    case Presence => 102
    case Temperature => 103
    case Humidity => 104
    case Accelerometer => 113
    case Pressure => 115
    case Altitude => 121
    case Voltage => 116
    case Current => 117
    case Frequency => 118
    case Percentage => 120
    case Concentration => 125
    case Power => 128
    case Distance => 130
    case Energy => 131
    case Direction => 132
    case Time => 133
    case Gyrometer => 134
    case Colour => 135
    case Gps => 136
    case Switch => 142
    case Polyline => 240
  }

  datatype Assignment = Assign(field: Field, value: Value, next: nat) | Starved | Stop

  function Named(f: Field, o: Outcome): Assignment {
    match o
    case Read(v, next) => Assign(f, v, next)
    case TooShort => Starved
    case UnknownType => Stop
  }

  /** The value of a type and its name, as a channel has it. */
  function ChannelValue(b: seq<byte>, pos: nat, kind: byte): (a: Assignment)
    ensures a.Assign? ==> pos <= a.next <= |b|
  {
    match kind
    case 0 => Named(DigitalInput, Whole(UnsignedAt(b, pos, 1)))
    case 1 => Named(DigitalOutput, Whole(UnsignedAt(b, pos, 1)))
    case 2 => Named(AnalogInput, Scaled(SignedAt(b, pos, 2), 100.0))
    case 3 => Named(AnalogOutput, Scaled(SignedAt(b, pos, 2), 100.0))
    case 100 => Named(Generic, Whole(UnsignedAt(b, pos, 4)))
    case 101 => Named(Luminosity, Whole(UnsignedAt(b, pos, 2)))
    case 102 => Named(Presence, NonZero(UnsignedAt(b, pos, 1)))
    case 103 => Named(Temperature, Scaled(SignedAt(b, pos, 2), 10.0))
    case 104 => Named(Humidity, Scaled(UnsignedAt(b, pos, 1), 2.0))
    case 113 => Named(Accelerometer, AxesAt(b, pos, 1000.0))
    case 115 => Named(Pressure, Scaled(UnsignedAt(b, pos, 2), 10.0))
    case 121 => Named(Altitude, Whole(SignedAt(b, pos, 2)))
    case 116 => Named(Voltage, Scaled(SignedAt(b, pos, 2), 100.0))
    case 117 => Named(Current, Scaled(SignedAt(b, pos, 2), 1000.0))
    case 118 => Named(Frequency, Whole(UnsignedAt(b, pos, 4)))
    case 120 => Named(Percentage, Whole(UnsignedAt(b, pos, 1)))
    case 125 => Named(Concentration, Whole(UnsignedAt(b, pos, 2)))
    case 128 => Named(Power, Whole(UnsignedAt(b, pos, 2)))
    case 130 => Named(Distance, Scaled(UnsignedAt(b, pos, 4), 1000.0))
    case 131 => Named(Energy, Scaled(UnsignedAt(b, pos, 4), 1000.0))
    case 132 => Named(Direction, Whole(UnsignedAt(b, pos, 2)))
    case 133 => Named(Time, Whole(UnsignedAt(b, pos, 4)))
    case 134 => Named(Gyrometer, AxesAt(b, pos, 100.0))
    case 135 => Named(Colour, ColourAt(b, pos))
    case 136 => Named(Gps, GpsAt(b, pos))
    case 142 => Named(Switch, NonZero(UnsignedAt(b, pos, 1)))
    case 240 => Named(Polyline, PolylineAt(b, pos))
    case _ => Stop
  }

  /** Presence and switches are numbers in the list, and yes or no in a channel. */
  function Shown(kind: byte, v: Value): Value {
    if (kind == 102 || kind == 142) && v.Int? then Flag(v.n != 0) else v
  }

  /** The two switches read the same bytes of every type, stop at the same ones, and name each type apart. */
  lemma SwitchesAgree(b: seq<byte>, pos: nat, kind: byte)
    ensures
      var o, a := ListedValue(b, pos, kind), ChannelValue(b, pos, kind);
      && (o.UnknownType? <==> a.Stop?) && (o.TooShort? <==> a.Starved?)
      && (o.Read? ==> a.Assign? && a.next == o.next && TypeOf(a.field) == kind && a.value == Shown(kind, o.value))
  {}

  lemma TypesTellFieldsApart(f: Field, g: Field)
    requires TypeOf(f) == TypeOf(g)
    ensures f == g
  {}

  // ----- the list

  datatype Entry = Entry(channel: byte, kind: byte, value: Value)

  /** Two zero bytes are padding. */
  predicate EndsAt(b: seq<byte>, pos: nat) {
    |b| < pos + 2 || (b[pos] == 0 && b[pos + 1] == 0)
  }

  function Parsed(b: seq<byte>, pos: nat): seq<Entry>
    decreases |b| - pos
  {
    if EndsAt(b, pos) then []
    else
      var o := ListedValue(b, pos + 2, b[pos + 1]);
      if o.Read? then [Entry(b[pos], b[pos + 1], o.value)] + Parsed(b, o.next) else []
  }

  // ----- the channels

  type Channels = map<byte, map<Field, Value>>

  function WithChannel(ch: Channels, c: byte): Channels {
    if c in ch then ch else ch[c := map[]]
  }

  function ByChannel(b: seq<byte>, pos: nat, ch: Channels): Channels
    decreases |b| - pos
  {
    if EndsAt(b, pos) then ch
    else
      var c := b[pos];
      var added := WithChannel(ch, c);
      var a := ChannelValue(b, pos + 2, b[pos + 1]);
      if a.Assign? then ByChannel(b, a.next, added[c := added[c][a.field := a.value]]) else added
  }

  // ----- agreement

  /** The last value listed for a channel and type. */
  function LastOf(items: seq<Entry>, c: byte, kind: byte): Option<Value> {
    if items == [] then None
    else
      var later := LastOf(items[1..], c, kind);
      if later.Some? then later
      else if items[0].channel == c && items[0].kind == kind then Some(items[0].value) else None
  }

  lemma {:induction false} LastOfMeaning(items: seq<Entry>, c: byte, kind: byte)
    ensures LastOf(items, c, kind).None? ==>
      forall i :: 0 <= i < |items| ==> items[i].channel != c || items[i].kind != kind
    ensures LastOf(items, c, kind).Some? ==>
      exists i :: 0 <= i < |items| && items[i] == Entry(c, kind, LastOf(items, c, kind).value)
        && forall j :: i < j < |items| ==> items[j].channel != c || items[j].kind != kind
  {
    if items != [] {
      LastOfMeaning(items[1..], c, kind);
      var later := LastOf(items[1..], c, kind);
      if later.Some? {
        var i :| 0 <= i < |items[1..]| && items[1..][i] == Entry(c, kind, later.value)
          && forall j :: i < j < |items[1..]| ==> items[1..][j].channel != c || items[1..][j].kind != kind;
        assert items[i + 1] == items[1..][i];
        forall j | i + 1 < j < |items|
          ensures items[j].channel != c || items[j].kind != kind
        {
          assert items[j] == items[1..][j - 1];
        }
      } else {
        forall j | 0 < j < |items|
          ensures items[j].channel != c || items[j].kind != kind
        {
          assert items[j] == items[1..][j - 1];
        }
      }
    }
  }

  /** The channel whose value could not be read, for want of bytes or because its type is unknown. */
  function StoppedAt(b: seq<byte>, pos: nat): Option<byte>
    decreases |b| - pos
  {
    if EndsAt(b, pos) then None
    else
      var o := ListedValue(b, pos + 2, b[pos + 1]);
      if o.Read? then StoppedAt(b, o.next) else Some(b[pos])
  }

  function Lookup(ch: Channels, c: byte, f: Field): Option<Value> {
    if c in ch && f in ch[c] then Some(ch[c][f]) else None
  }

  function LastShown(items: seq<Entry>, c: byte, f: Field, before: Option<Value>): Option<Value> {
    var v := LastOf(items, c, TypeOf(f));
    if v.Some? then Some(Shown(TypeOf(f), v.value)) else before
  }

  predicate Lists(items: seq<Entry>, c: byte) {
    exists i :: 0 <= i < |items| && items[i].channel == c
  }

  lemma ListsHead(e: Entry, items: seq<Entry>, c: byte)
    ensures Lists([e] + items, c) <==> e.channel == c || Lists(items, c)
  {
    var all := [e] + items;
    if Lists(items, c) {
      var i :| 0 <= i < |items| && items[i].channel == c;
      assert all[i + 1].channel == c;
    }
    if e.channel == c {
      assert all[0].channel == c;
    }
  }

  lemma AssignedLookup(ch: Channels, c: byte, f: Field, v: Value)
    ensures
      var added := WithChannel(ch, c);
      var next := added[c := added[c][f := v]];
      && (forall d :: d in next <==> d in ch || d == c)
      && (forall d, g :: Lookup(next, d, g) == if d == c && g == f then Some(v) else Lookup(ch, d, g))
  {}

  lemma LastShownHead(e: Entry, items: seq<Entry>, c: byte, f: Field, g: Field, before: Option<Value>)
    requires TypeOf(f) == e.kind && (TypeOf(g) == TypeOf(f) ==> g == f)
    ensures LastShown([e] + items, c, g, before)
         == LastShown(items, c, g, if e.channel == c && g == f then Some(Shown(e.kind, e.value)) else before)
  {
    assert ([e] + items)[1..] == items;
  }

  /** From any point of the bytes on, the channels take over the last value listed of every channel and type. */
  lemma {:induction false} ParsersAgreeFrom(b: seq<byte>, pos: nat, ch: Channels)
    ensures
      var r, items := ByChannel(b, pos, ch), Parsed(b, pos);
      && (forall c, f :: Lookup(r, c, f) == LastShown(items, c, f, Lookup(ch, c, f)))
      && (forall c :: c in r <==> c in ch || Lists(items, c) || StoppedAt(b, pos) == Some(c))
    decreases |b| - pos
  {
    if !EndsAt(b, pos) {
      SwitchesAgree(b, pos + 2, b[pos + 1]);
      var c, kind := b[pos], b[pos + 1];
      var a := ChannelValue(b, pos + 2, kind);
      if a.Assign? {
        var added := WithChannel(ch, c);
        var next := added[c := added[c][a.field := a.value]];
        var e := Entry(c, kind, ListedValue(b, pos + 2, kind).value);
        ParsersAgreeFrom(b, a.next, next);
        AssignedLookup(ch, c, a.field, a.value);
        forall d ensures Lists(Parsed(b, pos), d) <==> c == d || Lists(Parsed(b, a.next), d) {
          ListsHead(e, Parsed(b, a.next), d);
        }
        forall d, g
          ensures LastShown(Parsed(b, pos), d, g, Lookup(ch, d, g)) == LastShown(Parsed(b, a.next), d, g, Lookup(next, d, g))
        {
          if TypeOf(g) == TypeOf(a.field) {
            TypesTellFieldsApart(g, a.field);
          }
          LastShownHead(e, Parsed(b, a.next), d, a.field, g, Lookup(ch, d, g));
        }
      }
    }
  }

  /**
   * On any bytes: a channel holds, for every type, the last value the list has for it and nothing else; the
   * channels are those listed, and the one where reading stopped, if that is not listed then without values.
   */
  lemma ParsersAgree(b: seq<byte>)
    ensures
      var r, items := ByChannel(b, 0, map[]), Parsed(b, 0);
      && (forall c, f :: Lookup(r, c, f) == LastShown(items, c, f, None))
      && (forall c :: c in r <==> Lists(items, c) || StoppedAt(b, 0) == Some(c))
      && (forall c :: c in r && !Lists(items, c) ==> r[c] == map[])
  {
    var r, items := ByChannel(b, 0, map[]), Parsed(b, 0);
    ParsersAgreeFrom(b, 0, map[]);
    forall c | c in r && !Lists(items, c)
      ensures r[c] == map[]
    {
      forall f ensures f !in r[c] {
        LastOfMeaning(items, c, TypeOf(f));
        assert Lookup(r, c, f) == LastShown(items, c, f, None);
      }
    }
  }

  // ----- sorted

  datatype ChannelData = ChannelData(channel: byte, values: map<Field, Value>)

  /** The channels from c on, ascending. */
  function Ascending(ch: Channels, c: nat): (out: seq<ChannelData>)
    requires c <= 256
    decreases 256 - c
  {
    if c == 256 then [] else (if c in ch then [ChannelData(c, ch[c])] else []) + Ascending(ch, c + 1)
  }

  /** Ascending, every channel once, with its values. */
  ghost predicate SortedChannels(out: seq<ChannelData>, ch: Channels, from: nat) {
    && (forall i, j :: 0 <= i < j < |out| ==> out[i].channel < out[j].channel)
    && (forall i :: 0 <= i < |out| ==> from <= out[i].channel && out[i].channel in ch && out[i].values == ch[out[i].channel])
    && (forall c :: c in ch && from <= c ==> HasChannel(out, c))
  }

  ghost predicate HasChannel(out: seq<ChannelData>, c: byte) {
    exists i :: 0 <= i < |out| && out[i].channel == c
  }

  lemma {:induction false} AscendingIsSorted(ch: Channels, c: nat)
    requires c <= 256
    ensures SortedChannels(Ascending(ch, c), ch, c)
    decreases 256 - c
  {
    if c < 256 {
      AscendingIsSorted(ch, c + 1);
      if c in ch {
        SortedCons(ch, c, Ascending(ch, c + 1));
      } else {
        SkipAbsent(Ascending(ch, c + 1), ch, c);
      }
    }
  }

  lemma SortedCons(ch: Channels, c: byte, rest: seq<ChannelData>)
    requires c in ch && SortedChannels(rest, ch, c + 1)
    ensures SortedChannels([ChannelData(c, ch[c])] + rest, ch, c)
  {
    var out := [ChannelData(c, ch[c])] + rest;
    forall d | d in ch && c <= d
      ensures HasChannel(out, d)
    {
      if d == c {
        assert out[0].channel == d;
      } else {
        assert HasChannel(rest, d);
        var i :| 0 <= i < |rest| && rest[i].channel == d;
        assert out[i + 1].channel == d;
      }
    }
  }

  /** However the channels are sorted, what comes out is this. */
  lemma {:induction false} SortIsUnique(out: seq<ChannelData>, ch: Channels, c: nat)
    requires c <= 256 && SortedChannels(out, ch, c)
    ensures out == Ascending(ch, c)
    decreases 256 - c
  {
    if c == 256 {
      NothingBeyond(out, ch);
    } else {
      var rest := PastChannel(out, ch, c);
      SortIsUnique(rest, ch, c + 1);
      Rejoined(out, ch, c, rest);
    }
  }

  /** What is left after channel c. */
  lemma PastChannel(out: seq<ChannelData>, ch: Channels, c: nat) returns (rest: seq<ChannelData>)
    requires c < 256 && SortedChannels(out, ch, c)
    ensures SortedChannels(rest, ch, c + 1)
    ensures if c in ch then out != [] && out[0] == ChannelData(c, ch[c]) && rest == out[1..] else rest == out
  {
    if c in ch {
      LowestFirst(out, ch, c);
      SortedTail(out, ch, c);
      rest := out[1..];
    } else {
      SkipAbsent(out, ch, c);
      rest := out;
    }
  }

  lemma Rejoined(out: seq<ChannelData>, ch: Channels, c: nat, rest: seq<ChannelData>)
    requires c < 256 && rest == Ascending(ch, c + 1)
    requires if c in ch then out != [] && out[0] == ChannelData(c, ch[c]) && rest == out[1..] else rest == out
    ensures out == Ascending(ch, c)
  {
    if c in ch {
      UniqueCons(out, ch, c, rest);
    }
  }

  lemma FirstAtLeast(out: seq<ChannelData>, ch: Channels, c: nat)
    requires SortedChannels(out, ch, c) && out != []
    ensures c <= out[0].channel
  {}

  lemma UniqueCons(out: seq<ChannelData>, ch: Channels, c: nat, rest: seq<ChannelData>)
    requires c < 256 && c in ch && out != [] && out[0] == ChannelData(c, ch[c]) && rest == out[1..] && rest == Ascending(ch, c + 1)
    ensures out == Ascending(ch, c)
  {
    HeadAndTail(out, ChannelData(c, ch[c]));
    AscendingCons(ch, c);
  }

  lemma NothingBeyond(out: seq<ChannelData>, ch: Channels)
    requires SortedChannels(out, ch, 256)
    ensures out == []
  {
    if out != [] {
      FirstAtLeast(out, ch, 256);
    }
  }

  lemma AscendingCons(ch: Channels, c: nat)
    requires c < 256 && c in ch
    ensures Ascending(ch, c) == [ChannelData(c, ch[c])] + Ascending(ch, c + 1)
  {}

  lemma HeadAndTail<T>(s: seq<T>, head: T)
    requires s != [] && s[0] == head
    ensures [head] + s[1..] == s
  {}

  lemma SkipAbsent(out: seq<ChannelData>, ch: Channels, c: nat)
    requires c < 256 && c !in ch
    ensures SortedChannels(out, ch, c) <==> SortedChannels(out, ch, c + 1)
    ensures Ascending(ch, c) == Ascending(ch, c + 1)
  {}

  lemma LowestFirst(out: seq<ChannelData>, ch: Channels, c: nat)
    requires c in ch && SortedChannels(out, ch, c)
    ensures out != [] && out[0] == ChannelData(c, ch[c])
  {
    assert HasChannel(out, c);
    var i :| 0 <= i < |out| && out[i].channel == c;
    assert out[0].channel <= out[i].channel;
  }

  lemma SortedTail(out: seq<ChannelData>, ch: Channels, c: nat)
    requires out != [] && out[0].channel == c && SortedChannels(out, ch, c)
    ensures SortedChannels(out[1..], ch, c + 1)
  {
    forall d | d in ch && c + 1 <= d
      ensures HasChannel(out[1..], d)
    {
      assert HasChannel(out, d);
      var i :| 0 <= i < |out| && out[i].channel == d;
      assert out[1..][i - 1] == out[i];
    }
  }

  // ----- the writer

  /** A reading to be written: temperatures in tenths, voltages and altitudes in hundredths, degrees in ten-thousandths. */
  datatype Reading =
    | Digital(channel: byte, value: int)
    | Warmth(channel: byte, tenths: int)
    | Volts(channel: byte, hundredths: int)
    | Where(channel: byte, latitude: int, longitude: int, altitude: int)

  function Packed(w: Reading): seq<byte> {
    match w
    case Digital(c, v) => [c, 0, v % 256]
    case Warmth(c, t) => [c, 103] + BigEndian(t, 2)
    case Volts(c, h) => [c, 116] + BigEndian(h, 2)
    case Where(c, lat, lon, alt) => [c, 136] + ((BigEndian(lat, 3) + BigEndian(lon, 3)) + BigEndian(alt, 3))
  }

  function PackedAll(ws: seq<Reading>): seq<byte> {
    if ws == [] then [] else Packed(ws[0]) + PackedAll(ws[1..])
  }

  /** The numbers fit the bytes they get. */
  predicate Fits(w: Reading) {
    match w
    case Digital(_, v) => 0 <= v < 256
    case Warmth(_, t) => -0x8000 <= t < 0x8000
    case Volts(_, h) => -0x8000 <= h < 0x8000
    case Where(_, lat, lon, alt) =>
      -0x80_0000 <= lat < 0x80_0000 && -0x80_0000 <= lon < 0x80_0000 && -0x80_0000 <= alt < 0x80_0000
  }

  predicate AllFit(ws: seq<Reading>) {
    forall i :: 0 <= i < |ws| ==> Fits(ws[i])
  }

  /** The entry the list should have for a reading. */
  function Listed(w: Reading): Entry {
    match w
    case Digital(c, v) => Entry(c, 0, Int(v))
    case Warmth(c, t) => Entry(c, 103, Dec(t as real / 10.0))
    case Volts(c, h) => Entry(c, 116, Dec(h as real / 100.0))
    case Where(c, lat, lon, alt) =>
      Entry(c, 136, Place(lat as real / 10000.0, lon as real / 10000.0, alt as real / 100.0))
  }

  /** A digital input on channel 0 begins like padding. */
  predicate LooksLikePadding(w: Reading) {
    w.Digital? && w.channel == 0
  }

  function ListedAll(ws: seq<Reading>): seq<Entry> {
    if ws == [] || LooksLikePadding(ws[0]) then [] else [Listed(ws[0])] + ListedAll(ws[1..])
  }

  lemma {:induction false} ListedAllMeaning(ws: seq<Reading>)
    ensures |ListedAll(ws)| <= |ws|
    ensures |ListedAll(ws)| == |ws| <==> forall i :: 0 <= i < |ws| ==> !LooksLikePadding(ws[i])
    ensures forall i :: 0 <= i < |ListedAll(ws)| ==> ListedAll(ws)[i] == Listed(ws[i])
    ensures |ListedAll(ws)| < |ws| ==> LooksLikePadding(ws[|ListedAll(ws)|])
  {
    if ws != [] && !LooksLikePadding(ws[0]) {
      ListedAllMeaning(ws[1..]);
    }
  }

  lemma NumberReadBack(b: seq<byte>, pos: nat, v: int, count: nat)
    requires 2 <= count <= 3 && pos + count <= |b| && b[pos..pos + count] == BigEndian(v, count)
    requires if count == 2 then -0x8000 <= v < 0x8000 else -0x80_0000 <= v < 0x80_0000
    ensures SignedAt(b, pos, count) == Got(v, pos + count)
  {
    assert Power256(2) == 0x1_0000 && Power256(3) == 0x100_0000;
    SignedReadBack(v, count);
  }

  lemma SliceOfSlice(b: seq<byte>, n: nat, p: seq<byte>, lo: nat, hi: nat)
    requires n + |p| <= |b| && b[n..n + |p|] == p && lo <= hi <= |p|
    ensures b[n + lo..n + hi] == p[lo..hi]
  {
    forall k | 0 <= k < hi - lo
      ensures b[n + lo..n + hi][k] == p[lo..hi][k]
    {
      assert b[n..n + |p|][lo + k] == b[n + lo + k];
    }
  }

  lemma ThreeParts(head: seq<byte>, x: seq<byte>, y: seq<byte>, z: seq<byte>)
    requires |head| == 2 && |x| == |y| == |z| == 3
    ensures
      var p := head + ((x + y) + z);
      |p| == 11 && p[2..5] == x && p[5..8] == y && p[8..11] == z
  {}

  // ----- every type read back from its bytes

  /** How a number is sent: in so many bytes, with a sign or not, in units of a whole or a fraction. */
  datatype Wire = Wire(bytes: nat, signed: bool, parts: int)

  function WireOf(kind: byte): (w: Option<Wire>)
    ensures w.Some? ==> 1 <= w.value.bytes <= 4 && 1 <= w.value.parts && (w.value.signed ==> w.value.bytes == 2)
  {
    if kind in {0, 1, 102, 120, 142} then Some(Wire(1, false, 1))
    else if kind == 104 then Some(Wire(1, false, 2))
    else if kind in {101, 125, 128, 132} then Some(Wire(2, false, 1))
    else if kind == 115 then Some(Wire(2, false, 10))
    else if kind in {100, 118, 133} then Some(Wire(4, false, 1))
    else if kind in {130, 131} then Some(Wire(4, false, 1000))
    else if kind == 121 then Some(Wire(2, true, 1))
    else if kind == 103 then Some(Wire(2, true, 10))
    else if kind in {2, 3, 116} then Some(Wire(2, true, 100))
    else if kind == 117 then Some(Wire(2, true, 1000))
    else None
  }

  predicate Sendable(w: Wire, v: int) {
    if w.signed then -0x8000 <= v < 0x8000
    else 0 <= v < (if w.bytes == 1 then 0x100 else if w.bytes == 2 then 0x1_0000 else 0x1_0000_0000)
  }

  lemma NumberHeld(b: seq<byte>, n: nat, v: int, w: Wire)
    requires w.bytes in {1, 2, 4} && (w.signed ==> w.bytes == 2) && Sendable(w, v) && HoldsAt(b, n, BigEndian(v, w.bytes))
    ensures (if w.signed then SignedAt(b, n, 2) else UnsignedAt(b, n, w.bytes)) == Got(v, n + w.bytes)
  {
    assert Power256(1) == 0x100 && Power256(2) == 0x1_0000;
    assert Power256(4) == 256 * (256 * Power256(2));
    if w.signed {
      NumberReadBack(b, n, v, 2);
    } else {
      UnsignedIs(v, w.bytes);
    }
  }

  /** Any number in the bytes, sign and unit of its type is listed as that number of units. */
  lemma NumbersReadBack(b: seq<byte>, n: nat, kind: byte, v: int)
    requires WireOf(kind).Some? && Sendable(WireOf(kind).value, v) && HoldsAt(b, n, BigEndian(v, WireOf(kind).value.bytes))
    ensures
      var w := WireOf(kind).value;
      ListedValue(b, n, kind) == Read(if w.parts == 1 then Int(v) else Dec(v as real / w.parts as real), n + w.bytes)
  {
    var w := WireOf(kind).value;
    NumberHeld(b, n, v, w);
    ListedNumber(b, n, kind, w, if w.signed then SignedAt(b, n, 2) else UnsignedAt(b, n, w.bytes));
  }

  /** The number a type is read from. */
  lemma ListedNumber(b: seq<byte>, n: nat, kind: byte, w: Wire, g: Got<int>)
    requires WireOf(kind) == Some(w) && g == if w.signed then SignedAt(b, n, 2) else UnsignedAt(b, n, w.bytes)
    ensures ListedValue(b, n, kind) == if w.parts == 1 then Whole(g) else Scaled(g, w.parts as real)
  {}

  /** Three axes, in this order, in thousandths (acceleration) or hundredths (rotation). */
  lemma AxesReadBack(b: seq<byte>, n: nat, kind: byte, x: int, y: int, z: int)
    requires kind == 113 || kind == 134
    requires -0x8000 <= x < 0x8000 && -0x8000 <= y < 0x8000 && -0x8000 <= z < 0x8000
    requires HoldsAt(b, n, BigEndian(x, 2) + (BigEndian(y, 2) + BigEndian(z, 2)))
    ensures
      var parts := if kind == 113 then 1000.0 else 100.0;
      ListedValue(b, n, kind) == Read(Triple(x as real / parts, y as real / parts, z as real / parts), n + 6)
  {
    HoldsParts(b, n, BigEndian(x, 2), BigEndian(y, 2) + BigEndian(z, 2));
    HoldsParts(b, n + 2, BigEndian(y, 2), BigEndian(z, 2));
    NumberReadBack(b, n, x, 2);
    NumberReadBack(b, n + 2, y, 2);
    NumberReadBack(b, n + 4, z, 2);
  }

  lemma ColourReadBack(b: seq<byte>, n: nat, red: byte, green: byte, blue: byte)
    requires HoldsAt(b, n, [red] + ([green] + [blue]))
    ensures ListedValue(b, n, 135) == Read(Rgb(red, green, blue), n + 3)
  {
    HoldsParts(b, n, [red], [green] + [blue]);
    HoldsParts(b, n + 1, [green], [blue]);
    ByteHeld(b, n, red);
    ByteHeld(b, n + 1, green);
    ByteHeld(b, n + 2, blue);
  }

  lemma ByteHeld(b: seq<byte>, n: nat, v: byte)
    requires HoldsAt(b, n, [v])
    ensures UnsignedAt(b, n, 1) == Got(v, n + 1)
  {
    OneByte(v);
    assert b[n..n + 1] == [v];
  }

  lemma OneByte(v: byte)
    ensures Unsigned([v]) == v
  {
    assert [v][..0] == [];
  }

  /** A polyline's size counts itself; its data are as many bytes as that leaves, or all there are. */
  lemma PolylineReadBack(b: seq<byte>, n: nat, size: byte, data: seq<byte>)
    requires HoldsAt(b, n, [size] + data)
    requires |data| == (if size == 0 then 0 else size - 1) || (|data| < size - 1 && n + 1 + |data| == |b|)
    ensures ListedValue(b, n, 240) == Read(Track(size, data), n + 1 + |data|)
  {
    HoldsParts(b, n, [size], data);
    ByteHeld(b, n, size);
  }

  lemma HeadReadBack(b: seq<byte>, n: nat, w: Reading)
    requires HoldsAt(b, n, Packed(w))
    ensures n + 2 <= |b| && b[n] == w.channel && b[n + 1] == Listed(w).kind
  {
    var p := b[n..n + |Packed(w)|];
    assert b[n] == p[0] && b[n + 1] == p[1];
  }

  lemma DigitalReadBack(b: seq<byte>, n: nat, w: Reading)
    requires w.Digital? && Fits(w) && HoldsAt(b, n, Packed(w))
    ensures ListedValue(b, n + 2, 0) == Read(Int(w.value), n + 3)
  {
    var p := b[n..n + 3];
    assert b[n + 2] == p[2] == w.value;
    assert b[n + 2..n + 3] == [w.value];
    assert [w.value][..0] == [] && Unsigned([w.value]) == w.value;
  }

  lemma WarmthReadBack(b: seq<byte>, n: nat, w: Reading)
    requires w.Warmth? && Fits(w) && HoldsAt(b, n, Packed(w))
    ensures ListedValue(b, n + 2, 103) == Read(Dec(w.tenths as real / 10.0), n + 4)
  {
    var p := b[n..n + 4];
    assert b[n + 2..n + 4] == p[2..4] == BigEndian(w.tenths, 2);
    NumberReadBack(b, n + 2, w.tenths, 2);
  }

  lemma VoltsReadBack(b: seq<byte>, n: nat, w: Reading)
    requires w.Volts? && Fits(w) && HoldsAt(b, n, Packed(w))
    ensures ListedValue(b, n + 2, 116) == Read(Dec(w.hundredths as real / 100.0), n + 4)
  {
    var p := b[n..n + 4];
    assert b[n + 2..n + 4] == p[2..4] == BigEndian(w.hundredths, 2);
    NumberReadBack(b, n + 2, w.hundredths, 2);
  }

  lemma WhereReadBack(b: seq<byte>, n: nat, w: Reading)
    requires w.Where? && Fits(w) && HoldsAt(b, n, Packed(w))
    ensures GpsAt(b, n + 2) == Read(Listed(w).value, n + 11)
  {
    var p := Packed(w);
    ThreeParts([w.channel, 136], BigEndian(w.latitude, 3), BigEndian(w.longitude, 3), BigEndian(w.altitude, 3));
    SliceOfSlice(b, n, p, 2, 5);
    SliceOfSlice(b, n, p, 5, 8);
    SliceOfSlice(b, n, p, 8, 11);
    NumberReadBack(b, n + 2, w.latitude, 3);
    NumberReadBack(b, n + 5, w.longitude, 3);
    NumberReadBack(b, n + 8, w.altitude, 3);
  }

  lemma ReadingReadBack(b: seq<byte>, n: nat, w: Reading)
    requires Fits(w) && HoldsAt(b, n, Packed(w))
    ensures ListedValue(b, n + 2, Listed(w).kind) == Read(Listed(w).value, n + |Packed(w)|)
  {
    match w
    case Digital(_, _) => DigitalReadBack(b, n, w);
    case Warmth(_, _) => WarmthReadBack(b, n, w);
    case Volts(_, _) => VoltsReadBack(b, n, w);
    case Where(_, _, _, _) => WhereReadBack(b, n, w);
  }

  lemma ParsedStep(b: seq<byte>, n: nat, w: Reading, tail: seq<Entry>)
    requires Fits(w) && HoldsAt(b, n, Packed(w))
    requires LooksLikePadding(w) || tail == Parsed(b, n + |Packed(w)|)
    ensures Parsed(b, n) == if LooksLikePadding(w) then [] else [Listed(w)] + tail
  {
    HeadReadBack(b, n, w);
    ReadingReadBack(b, n, w);
    ParsedEntry(b, n, Listed(w), n + |Packed(w)|);
  }

  lemma ParsedEntry(b: seq<byte>, n: nat, e: Entry, next: nat)
    requires n + 2 <= |b| && b[n] == e.channel && b[n + 1] == e.kind
    requires ListedValue(b, n + 2, e.kind) == Read(e.value, next)
    ensures Parsed(b, n) == if e.channel == 0 && e.kind == 0 then [] else [e] + Parsed(b, next)
  {}

  /** These readings are in the bytes from n to the end. */
  ghost predicate InBytes(b: seq<byte>, n: nat, ws: seq<Reading>) {
    HoldsAt(b, n, PackedAll(ws)) && n + |PackedAll(ws)| == |b|
  }

  lemma InBytesNext(b: seq<byte>, n: nat, ws: seq<Reading>, w: Reading, next: nat)
    requires InBytes(b, n, ws) && ws != [] && w == ws[0] && next == n + |Packed(w)|
    ensures HoldsAt(b, n, Packed(w)) && InBytes(b, next, ws[1..])
  {
    HeldToTheEnd(b, n, Packed(w), PackedAll(ws[1..]));
  }

  lemma HeldToTheEnd(b: seq<byte>, n: nat, front: seq<byte>, back: seq<byte>)
    requires HoldsAt(b, n, front + back) && n + |front + back| == |b|
    ensures HoldsAt(b, n, front) && HoldsAt(b, n + |front|, back) && n + |front| + |back| == |b|
  {
    HoldsParts(b, n, front, back);
  }

  lemma ListedFirst(ws: seq<Reading>, w: Reading, rest: seq<Reading>)
    requires ws != [] && w == ws[0] && rest == ws[1..]
    ensures ListedAll(ws) == if LooksLikePadding(w) then [] else [Listed(w)] + ListedAll(rest)
  {}

  lemma {:induction false} ReadingsReadBackFrom(b: seq<byte>, n: nat, ws: seq<Reading>)
    requires InBytes(b, n, ws) && AllFit(ws)
    ensures Parsed(b, n) == ListedAll(ws)
    decreases |ws|
  {
    if ws != [] {
      var next, rest := n + |Packed(ws[0])|, ws[1..];
      InBytesNext(b, n, ws, ws[0], next);
      if !LooksLikePadding(ws[0]) {
        ReadingsReadBackFrom(b, next, rest);
      }
      ParsedStep(b, n, ws[0], ListedAll(rest));
      ListedFirst(ws, ws[0], rest);
    }
  }

  /**
   * The list gives back what was written, in order, up to the first digital input on
   * channel 0: everything, if and only if there is none.
   */
  lemma ReadingsReadBack(ws: seq<Reading>)
    requires AllFit(ws)
    ensures
      var es := Parsed(PackedAll(ws), 0);
      && (forall i :: 0 <= i < |es| ==> i < |ws| && es[i] == Listed(ws[i]))
      && (|es| < |ws| ==> LooksLikePadding(ws[|es|]))
      && |es| <= |ws|
    ensures |Parsed(PackedAll(ws), 0)| == |ws| <==> forall i :: 0 <= i < |ws| ==> !LooksLikePadding(ws[i])
  {
    assert PackedAll(ws)[0..|PackedAll(ws)|] == PackedAll(ws);
    ReadingsReadBackFrom(PackedAll(ws), 0, ws);
    ListedAllMeaning(ws);
  }

  lemma {:induction false} PackedSnoc(ws: seq<Reading>, w: Reading)
    ensures PackedAll(ws + [w]) == PackedAll(ws) + Packed(w)
  {
    if ws == [] {
      assert [w][1..] == [];
      assert Packed(w) + [] == Packed(w);
    } else {
      assert (ws + [w])[1..] == ws[1..] + [w];
      PackedSnoc(ws[1..], w);
      ConcatAssoc(Packed(ws[0]), PackedAll(ws[1..]), Packed(w));
    }
  }

  lemma FiveAppended(front: seq<byte>, c: seq<byte>, kind: seq<byte>, x: seq<byte>, y: seq<byte>, z: seq<byte>)
    requires |c| == 1 && |kind| == 1
    ensures ((((front + c) + kind) + x) + y) + z == front + ([c[0], kind[0]] + ((x + y) + z))
  {}

  class Writer {
    var bytes: seq<byte>
    /** all that was added */
    ghost var added: seq<Reading>

    ghost predicate Valid()
      reads this
    {
      bytes == PackedAll(added)
    }

    constructor ()
      ensures Valid() && added == []
    {
      bytes, added := [], [];
    }

    method AddDigitalInput(channel: byte, value: int)
      requires Valid()
      modifies this
      ensures Valid() && added == old(added) + [Digital(channel, value)]
    {
      PackedSnoc(added, Digital(channel, value));
      bytes := bytes + [channel] + [0] + [value % 256];
      added := added + [Digital(channel, value)];
    }

    method AddTemperature(channel: byte, tenths: int)
      requires Valid()
      modifies this
      ensures Valid() && added == old(added) + [Warmth(channel, tenths)]
    {
      PackedSnoc(added, Warmth(channel, tenths));
      bytes := bytes + [channel] + [103] + BigEndian(tenths, 2);
      added := added + [Warmth(channel, tenths)];
    }

    method AddVoltage(channel: byte, hundredths: int)
      requires Valid()
      modifies this
      ensures Valid() && added == old(added) + [Volts(channel, hundredths)]
    {
      PackedSnoc(added, Volts(channel, hundredths));
      bytes := bytes + [channel] + [116] + BigEndian(hundredths, 2);
      added := added + [Volts(channel, hundredths)];
    }

    method AddGps(channel: byte, latitude: int, longitude: int, altitude: int)
      requires Valid()
      modifies this
      ensures Valid() && added == old(added) + [Where(channel, latitude, longitude, altitude)]
    {
      PackedSnoc(added, Where(channel, latitude, longitude, altitude));
      FiveAppended(bytes, [channel], [136], BigEndian(latitude, 3), BigEndian(longitude, 3), BigEndian(altitude, 3));
      bytes := bytes + [channel] + [136];
      bytes := bytes + BigEndian(latitude, 3) + BigEndian(longitude, 3) + BigEndian(altitude, 3);
      added := added + [Where(channel, latitude, longitude, altitude)];
    }
  }

  // ----- the parsers

  method ReadAxes(r: Reader, unit: real) returns (o: Outcome)
    requires r.Valid() && unit != 0.0
    modifies r
    ensures r.Valid() && o == AxesAt(r.buffer, old(r.pointer), unit) && (o.Read? ==> r.pointer == o.next)
  {
    var x := r.ReadSigned(2);
    if x.Short? { return TooShort; }
    var y := r.ReadSigned(2);
    if y.Short? { return TooShort; }
    var z := r.ReadSigned(2);
    if z.Short? { return TooShort; }
    o := Read(Triple(x.value as real / unit, y.value as real / unit, z.value as real / unit), z.next);
  }

  method ReadColour(r: Reader) returns (o: Outcome)
    requires r.Valid()
    modifies r
    ensures r.Valid() && o == ColourAt(r.buffer, old(r.pointer)) && (o.Read? ==> r.pointer == o.next)
  {
    var x := r.ReadUnsigned(1);
    if x.Short? { return TooShort; }
    var y := r.ReadUnsigned(1);
    if y.Short? { return TooShort; }
    var z := r.ReadUnsigned(1);
    if z.Short? { return TooShort; }
    o := Read(Rgb(x.value, y.value, z.value), z.next);
  }

  method ReadGps(r: Reader) returns (o: Outcome)
    requires r.Valid()
    modifies r
    ensures r.Valid() && o == GpsAt(r.buffer, old(r.pointer)) && (o.Read? ==> r.pointer == o.next)
  {
    var x := r.ReadInt24();
    if x.Short? { return TooShort; }
    var y := r.ReadInt24();
    if y.Short? { return TooShort; }
    var z := r.ReadInt24();
    if z.Short? { return TooShort; }
    o := Read(Place(x.value as real / 10000.0, y.value as real / 10000.0, z.value as real / 100.0), z.next);
  }

  method ReadPolyline(r: Reader) returns (o: Outcome)
    requires r.Valid()
    modifies r
    ensures r.Valid() && o == PolylineAt(r.buffer, old(r.pointer)) && (o.Read? ==> r.pointer == o.next)
  {
    var size := r.ReadUnsigned(1);
    if size.Short? { return TooShort; }
    var declared := if 0 < size.value then size.value - 1 else 0;
    var data := r.ReadBytes(if declared <= r.Remaining() then declared else r.Remaining());
    o := Read(Track(size.value, data.value), data.next);
  }

  method ReadListed(r: Reader, kind: byte) returns (o: Outcome)
    requires r.Valid()
    modifies r
    ensures r.Valid() && o == ListedValue(r.buffer, old(r.pointer), kind) && (o.Read? ==> r.pointer == o.next)
  {
    match kind {
      case 0 => var g := r.ReadUnsigned(1); o := Whole(g);
      case 1 => var g := r.ReadUnsigned(1); o := Whole(g);
      case 2 => var g := r.ReadSigned(2); o := Scaled(g, 100.0);
      case 3 => var g := r.ReadSigned(2); o := Scaled(g, 100.0);
      case 100 => var g := r.ReadUnsigned(4); o := Whole(g);
      case 101 => var g := r.ReadUnsigned(2); o := Whole(g);
      case 102 => var g := r.ReadUnsigned(1); o := Whole(g);
      case 103 => var g := r.ReadSigned(2); o := Scaled(g, 10.0);
      case 104 => var g := r.ReadUnsigned(1); o := Scaled(g, 2.0);
      case 113 => o := ReadAxes(r, 1000.0);
      case 115 => var g := r.ReadUnsigned(2); o := Scaled(g, 10.0);
      case 121 => var g := r.ReadSigned(2); o := Whole(g);
      case 116 => var g := r.ReadSigned(2); o := Scaled(g, 100.0);
      case 117 => var g := r.ReadSigned(2); o := Scaled(g, 1000.0);
      case 118 => var g := r.ReadUnsigned(4); o := Whole(g);
      case 120 => var g := r.ReadUnsigned(1); o := Whole(g);
      case 125 => var g := r.ReadUnsigned(2); o := Whole(g);
      case 128 => var g := r.ReadUnsigned(2); o := Whole(g);
      case 130 => var g := r.ReadUnsigned(4); o := Scaled(g, 1000.0);
      case 131 => var g := r.ReadUnsigned(4); o := Scaled(g, 1000.0);
      case 132 => var g := r.ReadUnsigned(2); o := Whole(g);
      case 133 => var g := r.ReadUnsigned(4); o := Whole(g);
      case 134 => o := ReadAxes(r, 100.0);
      case 135 => o := ReadColour(r);
      case 136 => o := ReadGps(r);
      case 142 => var g := r.ReadUnsigned(1); o := Whole(g);
      case 240 => o := ReadPolyline(r);
      case _ => o := UnknownType;
    }
  }

  method Parse(b: seq<byte>) returns (telemetry: seq<Entry>)
    ensures telemetry == Parsed(b, 0)
  {
    var r := new Reader(b);
    var going := true;
    telemetry := [];
    while going && 2 <= r.Remaining()
      invariant r.Valid() && fresh(r) && r.buffer == b
      invariant telemetry + (if going then Parsed(b, r.pointer) else []) == Parsed(b, 0)
      decreases going, |b| - r.pointer
    {
      ghost var before := telemetry;
      var entry;
      going, entry := TakeEntry(r);
      if going {
        telemetry := telemetry + [entry];
        ConcatAssoc(before, [entry], Parsed(b, r.pointer));
      }
    }
    assert telemetry + [] == telemetry;
  }

  /** The next entry, unless reading stops here: at padding, an unknown type or the end. */
  method TakeEntry(r: Reader) returns (going: bool, entry: Entry)
    requires r.Valid() && 2 <= r.Remaining()
    modifies r
    ensures r.Valid() && (going ==> old(r.pointer) < r.pointer)
    ensures Parsed(r.buffer, old(r.pointer)) == if going then [entry] + Parsed(r.buffer, r.pointer) else []
  {
    ghost var pos := r.pointer;
    var channel := r.ReadByte();
    var kind := r.ReadByte();
    entry := Entry(channel, kind, Flag(false));
    if channel == 0 && kind == 0 {
      return false, entry;
    }
    var o := ReadListed(r, kind);
    if !o.Read? {
      return false, entry;
    }
    entry := Entry(channel, kind, o.value);
    ParsedEntry(r.buffer, pos, entry, o.next);
    going := true;
  }

  method ReadForChannel(r: Reader, kind: byte) returns (a: Assignment)
    requires r.Valid()
    modifies r
    ensures r.Valid() && a == ChannelValue(r.buffer, old(r.pointer), kind) && (a.Assign? ==> r.pointer == a.next)
  {
    var o: Outcome;
    match kind {
      case 0 => var g := r.ReadUnsigned(1); o := Whole(g); a := Named(DigitalInput, o);
      case 1 => var g := r.ReadUnsigned(1); o := Whole(g); a := Named(DigitalOutput, o);
      case 2 => var g := r.ReadSigned(2); o := Scaled(g, 100.0); a := Named(AnalogInput, o);
      case 3 => var g := r.ReadSigned(2); o := Scaled(g, 100.0); a := Named(AnalogOutput, o);
      case 100 => var g := r.ReadUnsigned(4); o := Whole(g); a := Named(Generic, o);
      case 101 => var g := r.ReadUnsigned(2); o := Whole(g); a := Named(Luminosity, o);
      case 102 => var g := r.ReadUnsigned(1); o := NonZero(g); a := Named(Presence, o);
      case 103 => var g := r.ReadSigned(2); o := Scaled(g, 10.0); a := Named(Temperature, o);
      case 104 => var g := r.ReadUnsigned(1); o := Scaled(g, 2.0); a := Named(Humidity, o);
      case 113 => o := ReadAxes(r, 1000.0); a := Named(Accelerometer, o);
      case 115 => var g := r.ReadUnsigned(2); o := Scaled(g, 10.0); a := Named(Pressure, o);
      case 121 => var g := r.ReadSigned(2); o := Whole(g); a := Named(Altitude, o);
      case 116 => var g := r.ReadSigned(2); o := Scaled(g, 100.0); a := Named(Voltage, o);
      case 117 => var g := r.ReadSigned(2); o := Scaled(g, 1000.0); a := Named(Current, o);
      case 118 => var g := r.ReadUnsigned(4); o := Whole(g); a := Named(Frequency, o);
      case 120 => var g := r.ReadUnsigned(1); o := Whole(g); a := Named(Percentage, o);
      case 125 => var g := r.ReadUnsigned(2); o := Whole(g); a := Named(Concentration, o);
      case 128 => var g := r.ReadUnsigned(2); o := Whole(g); a := Named(Power, o);
      case 130 => var g := r.ReadUnsigned(4); o := Scaled(g, 1000.0); a := Named(Distance, o);
      case 131 => var g := r.ReadUnsigned(4); o := Scaled(g, 1000.0); a := Named(Energy, o);
      case 132 => var g := r.ReadUnsigned(2); o := Whole(g); a := Named(Direction, o);
      case 133 => var g := r.ReadUnsigned(4); o := Whole(g); a := Named(Time, o);
      case 134 => o := ReadAxes(r, 100.0); a := Named(Gyrometer, o);
      case 135 => o := ReadColour(r); a := Named(Colour, o);
      case 136 => o := ReadGps(r); a := Named(Gps, o);
      case 142 => var g := r.ReadUnsigned(1); o := NonZero(g); a := Named(Switch, o);
      case 240 => o := ReadPolyline(r); a := Named(Polyline, o);
      case _ => a := Stop;
    }
  }

  lemma ByChannelStep(b: seq<byte>, pos: nat, before: Channels, added: Channels, a: Assignment)
    requires !EndsAt(b, pos) && added == WithChannel(before, b[pos]) && a == ChannelValue(b, pos + 2, b[pos + 1])
    ensures ByChannel(b, pos, before)
         == if a.Assign? then ByChannel(b, a.next, added[b[pos] := added[b[pos]][a.field := a.value]]) else added
  {}

  method ParseByChannel(b: seq<byte>) returns (out: seq<ChannelData>)
    ensures out == Ascending(ByChannel(b, 0, map[]), 0)
  {
    var r := new Reader(b);
    var channels: Channels := map[];
    var going := true;
    while going && 2 <= r.Remaining()
      invariant r.Valid() && fresh(r) && r.buffer == b
      invariant if going then ByChannel(b, r.pointer, channels) == ByChannel(b, 0, map[]) else channels == ByChannel(b, 0, map[])
      decreases going, |b| - r.pointer
    {
      going, channels := TakeValue(r, channels);
    }
    out := SortedChannelValues(channels);
  }

  /** One value into its channel; reading goes on unless it met padding, an unknown type or the end. */
  method TakeValue(r: Reader, channels0: Channels) returns (going: bool, channels: Channels)
    requires r.Valid() && 2 <= r.Remaining()
    modifies r
    ensures r.Valid() && (going ==> old(r.pointer) < r.pointer)
    ensures ByChannel(r.buffer, old(r.pointer), channels0)
         == if going then ByChannel(r.buffer, r.pointer, channels) else channels
  {
    ghost var pos := r.pointer;
    channels := channels0;
    var channel := r.ReadByte();
    var kind := r.ReadByte();
    if channel == 0 && kind == 0 {
      return false, channels;
    }
    if channel !in channels {
      channels := channels[channel := map[]];
    }
    var a := ReadForChannel(r, kind);
    ByChannelStep(r.buffer, pos, channels0, channels, a);
    if !a.Assign? {
      return false, channels;
    }
    channels := channels[channel := channels[channel][a.field := a.value]];
    going := true;
  }

  method SortedChannelValues(channels: Channels) returns (out: seq<ChannelData>)
    ensures out == Ascending(channels, 0)
  {
    out := [];
    var c: nat := 256;
    while 0 < c
      invariant c <= 256 && out == Ascending(channels, c)
    {
      c := c - 1;
      if c in channels {
        out := [ChannelData(c, channels[c])] + out;
      }
    }
  }
}
