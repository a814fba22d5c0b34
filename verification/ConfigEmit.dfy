/** Writing the gate schedules of the switches: `xml_write_instance` of `App/Client/Main.c` and `binaryToDecimal`
    of `App/Client/utils.c`. The output is the numbers that the templates are filled with, in the order written. */
module ConfigEmit {
  import opened Allocation
  import opened CText
  import opened Numerals
  import opened Sequences
  import opened JsonTree
  import opened JsonGrammar
  import opened JsonCompleteness
  import opened SwitchList
  import opened ConfigTree
  import opened ConfigLoad
  import opened ConfigFree

  // ----- gate states -----

  /** The digits of a C `int`, its last digit first, with weights 1, 2, 4 and so on; C divides towards zero. */
  function Weighted(n: int): int
    decreases if n < 0 then -n else n
  {
    if n == 0 then 0
    else if n < 0 then -((-n) % 10) + 2 * Weighted(-((-n) / 10))
    else n % 10 + 2 * Weighted(n / 10)
  }

  /** Digits read in base two. */
  function BaseTwo(s: string): nat
    requires GateDigits(s) || s == ""
  {
    if s == "" then 0
    else 2 * BaseTwo(s[..|s| - 1]) + (if s[|s| - 1] == '1' then 1 else 0)
  }

  /** The decimal number that a row of gate digits denotes is turned into what the row denotes in base two. */
  lemma {:induction false} GatesInBaseTwo(s: string)
    requires GateDigits(s) || s == ""
    ensures AllDigits(s) && Weighted(DigitsValue(s)) == BaseTwo(s)
  {
    if s != "" {
      var front := s[..|s| - 1];
      GatesInBaseTwo(front);
      var d := if s[|s| - 1] == '1' then 1 else 0;
      var n := DigitsValue(front);
      assert DigitsValue(s) == 10 * n + d;
      assert (10 * n + d) / 10 == n && (10 * n + d) % 10 == d;
    }
  }

  /** Any decimal digits, each with the weight of its place in base two. */
  function InTwos(s: string): int
    requires AllDigits(s)
  {
    if s == "" then 0 else 2 * InTwos(s[..|s| - 1]) + (s[|s| - 1] as int - '0' as int)
  }

  /** Every number is turned into its decimal digits, read with the weights of base two, and keeps its sign. */
  lemma {:induction false} DigitsInTwos(s: string)
    requires AllDigits(s)
    ensures var n: int := DigitsValue(s); Weighted(n) == InTwos(s) && Weighted(-n) == -InTwos(s)
  {
    if s != "" {
      var front := s[..|s| - 1];
      DigitsInTwos(front);
      var d := s[|s| - 1] as int - '0' as int;
      assert IsDigit(s[|s| - 1]);
      OneDigitMore(DigitsValue(front), d);
    }
  }

  lemma OneDigitMore(n: int, d: int)
    requires n >= 0 && 0 <= d <= 9
    ensures Weighted(10 * n + d) == d + 2 * Weighted(n) && Weighted(-(10 * n + d)) == 2 * Weighted(-n) - d
  {
    assert (10 * n + d) / 10 == n && (10 * n + d) % 10 == d;
  }

  function Power2(k: nat): nat {
    if k == 0 then 1 else 2 * Power2(k - 1)
  }

  lemma {:induction false} PowerBound(k: nat)
    requires k <= 10
    ensures Power2(k) <= 1024
    decreases 10 - k
  {
    if k == 10 {
      assert Power2(2) == 4;
      assert Power2(4) == 16;
      assert Power2(6) == 64;
      assert Power2(8) == 256;
    } else {
      PowerBound(k + 1);
    }
  }

  predicate IsInt(n: int) {
    -0x8000_0000 <= n < 0x8000_0000
  }

  /** `binaryToDecimal`: for every `int`, and no step of it overflows. */
  method BinaryToDecimal(n: int) returns (decValue: int)
    requires IsInt(n)
    ensures decValue == Weighted(n) && IsInt(decValue)
  {
    decValue := 0;
    var base, temp := 1, n;
    ghost var k: nat := 0;
    assert Power10(10) == 10_000_000_000 by { TenDigits(); }
    while temp != 0
      invariant k <= 10 && base == Power2(k) <= 1024
      invariant temp < Power10(10 - k) && -temp < Power10(10 - k)
      invariant -9 * (base - 1) <= decValue <= 9 * (base - 1)
      invariant decValue + base * Weighted(temp) == Weighted(n)
      decreases if temp < 0 then -temp else temp
    {
      var lastDigit := if temp < 0 then -((-temp) % 10) else temp % 10;
      temp := if temp < 0 then -((-temp) / 10) else temp / 10;
      assert Power10(10 - k) == 10 * Power10(9 - k);
      Distribute(base, lastDigit, Weighted(temp));
      WithinNine(base, lastDigit);
      decValue := decValue + lastDigit * base;
      base := base * 2;
      k := k + 1;
      PowerBound(k);
    }
  }

  lemma TenDigits()
    ensures Power10(10) == 10_000_000_000
  {
    assert Power10(2) == 100;
    assert Power10(4) == 10_000;
    assert Power10(6) == 1_000_000;
    assert Power10(8) == 100_000_000;
  }

  lemma Distribute(base: int, d: int, w: int)
    ensures base * (d + 2 * w) == d * base + (base * 2) * w
  {
  }

  lemma WithinNine(base: nat, d: int)
    requires -9 <= d <= 9
    ensures -9 * base <= d * base <= 9 * base
  {
  }

  // ----- the files -----

  /** What is filled into the templates: the start of a port with its number and the length of its schedule, an
      entry of the schedule, and the end of the port with the period that its cycle time is computed from. */
  datatype Fill = PortStart(number: int, length: nat) | Entry(index: nat, gates: int, period: nat) | PortEnd(cycle: nat)
  datatype File = File(name: string, fills: seq<Fill>)

  /** Every part of an entry was read, and its gate states are an `int`. */
  predicate EntryReady(v: PortValues) {
    v.period.Some? && v.gates.Some? && IsInt(v.gates.value)
  }

  predicate AllReady(values: seq<PortValues>) {
    forall i :: 0 <= i < |values| ==> EntryReady(values[i])
  }

  predicate PortReady(p: PortConf) {
    p.values != [] && AllReady(p.values)
  }

  predicate SwitchReady(c: SwitchConf) {
    c.ports != [] && forall i :: 0 <= i < |c.ports| ==> PortReady(c.ports[i])
  }

  function LastPeriod(ports: seq<PortConf>): nat
    requires ports != [] && forall i :: 0 <= i < |ports| ==> PortReady(ports[i])
  {
    assert PortReady(ports[|ports| - 1]);
    var values := ports[|ports| - 1].values;
    assert EntryReady(values[|values| - 1]);
    values[|values| - 1].period.value
  }

  /** The entries of a schedule, counted from 0. */
  function EntryFills(values: seq<PortValues>): seq<Fill>
    requires AllReady(values)
  {
    seq(|values|, i requires 0 <= i < |values| => Entry(i, Weighted(values[i].gates.value), values[i].period.value))
  }

  function PortFills(p: PortConf, cycle: nat): seq<Fill>
    requires PortReady(p)
  {
    [PortStart(p.number, |p.values|)] + EntryFills(p.values) + [PortEnd(cycle)]
  }

  /** One block for each port, in order. */
  function PortsFills(ports: seq<PortConf>, cycle: nat): seq<Fill>
    requires forall i :: 0 <= i < |ports| ==> PortReady(ports[i])
  {
    if ports == [] then []
    else PortsFills(ports[..|ports| - 1], cycle) + PortFills(ports[|ports| - 1], cycle)
  }

  function FileOf(c: SwitchConf): File
    requires SwitchReady(c)
  {
    File(c.name, PortsFills(c.ports, LastPeriod(c.ports)))
  }

  /** The loops over one port's schedule. */
  method WritePort(port: Port, cycle: nat, ghost cells: seq<Cell<PortValues>>, ghost p: PortConf)
    returns (fills: seq<Fill>)
    requires PortIs(port, cells, p) && PortReady(p)
    ensures fills == PortFills(p, cycle)
  {
    hide Weighted;
    var length := 0;
    var current: Cell?<PortValues> := port.values;
    while current != null
      invariant length <= |cells| && current == if length < |cells| then cells[length] else null
      decreases |cells| - length
    {
      NextOf(cells, length);
      length := length + 1;
      current := current.next;
    }
    fills := [PortStart(port.number, length)];
    ghost var entries := EntryFills(p.values);
    var index := 0;
    current := port.values;
    while current != null
      invariant index <= |cells| && current == if index < |cells| then cells[index] else null
      invariant fills == [PortStart(port.number, length)] + entries[..index]
      decreases |cells| - index
    {
      NextOf(cells, index);
      var values := current.data.value;
      Ready(p, index);
      var gates := BinaryToDecimal(values.gates.value);
      assert entries[..index + 1] == entries[..index] + [entries[index]];
      fills := fills + [Entry(index, gates, values.period.value)];
      index := index + 1;
      current := current.next;
    }
    assert entries[..index] == entries;
    fills := fills + [PortEnd(cycle)];
  }

  lemma Ready(p: PortConf, i: nat)
    requires PortReady(p) && i < |p.values|
    ensures p.values[i].period.Some? && p.values[i].gates.Some? && IsInt(p.values[i].gates.value)
  {
  }

  /** The loop before the output: each period replaces the last one, so the result is the last period. */
  method LastOf(values: Cell<PortValues>, ghost cells: seq<Cell<PortValues>>, ghost p: PortConf) returns (period: nat)
    requires ListOf(values, cells, p.values) && PortReady(p)
    ensures p.values != [] && p.values[|p.values| - 1].period == Some(period)
  {
    period := 0;
    var current: Cell?<PortValues> := values;
    ghost var i := 0;
    while current != null
      invariant i <= |cells| && current == if i < |cells| then cells[i] else null
      invariant i > 0 ==> p.values[i - 1].period == Some(period)
      decreases |cells| - i
    {
      NextOf(cells, i);
      Ready(p, i);
      period := current.data.value.period.value;
      i := i + 1;
      current := current.next;
    }
  }

  /** The period that all the ports of a switch are given. */
  method Cycle(list: Cell<Port>, ghost x: PortCells, ghost c: SwitchConf) returns (period: nat)
    requires PortsAre(list, x, c.ports) && SwitchReady(c)
    ensures period == LastPeriod(c.ports)
  {
    hide ListOf, PortReady, PortsAre;
    PortsAllocated(x);
    period := 0;
    var current: Cell?<Port> := list;
    ghost var i := 0;
    PortsListed(list, x, c.ports);
    while current != null
      invariant i <= |x.cells| && current == if i < |x.cells| then x.cells[i] else null
      invariant i > 0 ==> period == LastPeriod(c.ports[..i])
      decreases |x.cells| - i
    {
      PortInCell(list, x, c.ports, i);
      period := LastOf(current.data.value.values, x.values[i], c.ports[i]);
      LastOfPrefix(c.ports, i, period);
      i := i + 1;
      current := current.next;
    }
    assert c.ports[..i] == c.ports;
  }

  // ----- the cycle and the sum of the periods -----

  /** The sum of the periods of a schedule, and of all schedules of a switch. */
  function ScheduleSum(values: seq<PortValues>): nat
    requires AllReady(values)
  {
    if values == [] then 0
    else
      assert EntryReady(values[|values| - 1]);
      ScheduleSum(values[..|values| - 1]) + values[|values| - 1].period.value
  }

  function SumOfPeriods(ports: seq<PortConf>): nat
    requires forall i :: 0 <= i < |ports| ==> PortReady(ports[i])
  {
    if ports == [] then 0
    else
      assert PortReady(ports[|ports| - 1]);
      SumOfPeriods(ports[..|ports| - 1]) + ScheduleSum(ports[|ports| - 1].values)
  }

  predicate AllZero(values: seq<PortValues>) {
    forall i :: 0 <= i < |values| ==> values[i].period == Some(0)
  }

  lemma {:induction false} ZeroSchedule(values: seq<PortValues>)
    requires AllReady(values)
    ensures ScheduleSum(values) == 0 <==> AllZero(values)
  {
    if values != [] {
      var n := |values| - 1;
      assert EntryReady(values[n]);
      ZeroSchedule(values[..n]);
      assert forall i :: 0 <= i < n ==> values[..n][i] == values[i];
    }
  }

  lemma {:induction false} ZeroPorts(ports: seq<PortConf>)
    requires forall i :: 0 <= i < |ports| ==> PortReady(ports[i])
    ensures SumOfPeriods(ports) == 0 <==> forall i :: 0 <= i < |ports| ==> AllZero(ports[i].values)
  {
    hide AllZero, ScheduleSum;
    if ports != [] {
      var n := |ports| - 1;
      ZeroPorts(ports[..n]);
      ZeroSchedule(ports[n].values);
      assert forall i :: 0 <= i < n ==> ports[..n][i] == ports[i];
    }
  }

  /** Every period is zero, but perhaps the last one of the last port. */
  predicate OnlyLastCounts(ports: seq<PortConf>)
    requires ports != []
  {
    var last := ports[|ports| - 1].values;
    && (forall i :: 0 <= i < |ports| - 1 ==> AllZero(ports[i].values))
    && (last != [] ==> AllZero(last[..|last| - 1]))
  }

  /** The cycle that the ports of a switch are given is the sum of its periods, as the variable's name has it, if and
      only if at most the last period of the last port is not zero. */
  lemma CycleIsSumIff(ports: seq<PortConf>)
    requires ports != [] && forall i :: 0 <= i < |ports| ==> PortReady(ports[i])
    ensures LastPeriod(ports) == SumOfPeriods(ports) <==> OnlyLastCounts(ports)
  {
    hide AllZero, SumOfPeriods, ScheduleSum, PortReady, AllReady;
    var n := |ports| - 1;
    SumUnfolds(ports);
    ZeroPorts(ports[..n]);
    assert forall i :: 0 <= i < n ==> ports[..n][i] == ports[i];
  }

  /** The sum, with the last period of the last port apart. */
  lemma SumUnfolds(ports: seq<PortConf>)
    requires ports != [] && forall i :: 0 <= i < |ports| ==> PortReady(ports[i])
    ensures var (front, last) := (ports[..|ports| - 1], ports[|ports| - 1].values);
      && last != [] && AllReady(last[..|last| - 1])
      && SumOfPeriods(ports) == SumOfPeriods(front) + (ScheduleSum(last[..|last| - 1]) + LastPeriod(ports))
      && (ScheduleSum(last[..|last| - 1]) == 0 <==> AllZero(last[..|last| - 1]))
  {
    hide AllZero, EntryReady;
    assert PortReady(ports[|ports| - 1]);
    var last := ports[|ports| - 1].values;
    ZeroSchedule(last[..|last| - 1]);
  }

  /** A port with the periods 3 and 5 is given the cycle 5. */
  lemma CycleIsNotSum(number: int, gates: int)
    requires IsInt(gates)
    ensures var ports := [PortConf(number, [PortValues(Some(3), Some(gates)), PortValues(Some(5), Some(gates))])];
      PortReady(ports[0]) && LastPeriod(ports) == 5 && SumOfPeriods(ports) == 8
  {
    var values := [PortValues(Some(3), Some(gates)), PortValues(Some(5), Some(gates))];
    var ports := [PortConf(number, values)];
    assert EntryReady(values[0]) && EntryReady(values[1]);
    assert values[..1] == [values[0]] && [values[0]][..0] == [];
    assert ScheduleSum(values[..1]) == 3;
    assert ports[..0] == [];
  }

  lemma LastOfPrefix(ports: seq<PortConf>, i: nat, period: nat)
    requires i < |ports| && forall k :: 0 <= k < |ports| ==> PortReady(ports[k])
    requires ports[i].values != [] && ports[i].values[|ports[i].values| - 1].period == Some(period)
    ensures LastPeriod(ports[..i + 1]) == period
  {
  }

  /** The loop over the ports of one switch. */
  method WriteSwitch(sw: Switch, ghost x: PortCells, ghost c: SwitchConf) returns (file: File)
    requires SwitchIs(sw, x, c) && SwitchReady(c)
    ensures file == FileOf(c)
  {
    hide ListOf, PortReady, PortsAre, PortFills, PortsFills;
    PortsAllocated(x);
    var cycle := Cycle(sw.ports, x, c);
    PortsListed(sw.ports, x, c.ports);
    var fills := [];
    var current: Cell?<Port> := sw.ports;
    ghost var i := 0;
    NoFills(c.ports, cycle);
    while current != null
      invariant i <= |x.cells| && current == if i < |x.cells| then x.cells[i] else null
      invariant fills == PortsFills(c.ports[..i], cycle)
      decreases |x.cells| - i
    {
      PortInCell(sw.ports, x, c.ports, i);
      var more := WritePort(current.data.value, cycle, x.values[i], c.ports[i]);
      MoreFills(c.ports, i, cycle);
      fills := fills + more;
      i := i + 1;
      current := current.next;
    }
    assert c.ports[..i] == c.ports;
    file := File(sw.name, fills);
  }

  lemma NoFills(ports: seq<PortConf>, cycle: nat)
    ensures PortsFills(ports[..0], cycle) == []
  {
  }

  lemma MoreFills(ports: seq<PortConf>, i: nat, cycle: nat)
    requires i < |ports| && forall k :: 0 <= k < |ports| ==> PortReady(ports[k])
    ensures PortsFills(ports[..i + 1], cycle) == PortsFills(ports[..i], cycle) + PortFills(ports[i], cycle)
  {
    assert ports[..i + 1][..i] == ports[..i];
  }

  // ----- the output directory -----

  /** The files of the output directory, by the name of the switch. */
  type Directory = map<string, seq<Fill>>

  predicate AllSwitchesReady(confs: seq<SwitchConf>) {
    forall i :: 0 <= i < |confs| ==> SwitchReady(confs[i])
  }

  /** Each file is opened for writing, so what a file of the same name held before is gone. */
  function Written(d: Directory, confs: seq<SwitchConf>): Directory
    requires AllSwitchesReady(confs)
  {
    if confs == [] then d
    else
      var n := |confs| - 1;
      Written(d, confs[..n])[confs[n].name := FileOf(confs[n]).fills]
  }

  /** `xml_write_instance` */
  method WriteInstance(list: Cell<Switch>, d: Directory, ghost y: SwitchCells, ghost confs: seq<SwitchConf>)
    returns (d': Directory)
    requires SwitchesAre(list, y, confs) && confs != [] && AllSwitchesReady(confs)
    ensures d' == Written(d, confs)
  {
    hide SwitchesAre, SwitchReady, FileOf;
    SwitchesAllocated(y);
    SwitchesListed(list, y, confs);
    d' := d;
    var current: Cell?<Switch> := list;
    ghost var i := 0;
    assert confs[..0] == [];
    while current != null
      invariant i <= |y.cells| && current == if i < |y.cells| then y.cells[i] else null
      invariant d' == Written(d, confs[..i])
      decreases |y.cells| - i
    {
      SwitchInCell(list, y, confs, i);
      assert confs[..i + 1][..i] == confs[..i];
      var file := WriteSwitch(current.data.value, y.ports[i], confs[i]);
      NameOf(confs[i]);
      d' := d'[file.name := file.fills];
      i := i + 1;
      current := current.next;
    }
    assert confs[..i] == confs;
  }

  lemma NameOf(c: SwitchConf)
    requires SwitchReady(c)
    ensures FileOf(c).name == c.name
  {
  }

  function NameList(confs: seq<SwitchConf>): seq<string> {
    seq(|confs|, i requires 0 <= i < |confs| => confs[i].name)
  }

  function AsSet(names: seq<string>): set<string> {
    set x | x in names
  }

  lemma NamesSnoc(confs: seq<SwitchConf>)
    requires confs != []
    ensures var n := |confs| - 1; NameList(confs) == NameList(confs[..n]) + [confs[n].name]
    ensures var n := |confs| - 1; AsSet(NameList(confs)) == AsSet(NameList(confs[..n])) + {confs[n].name}
  {
    var n := |confs| - 1;
    assert NameList(confs) == NameList(confs[..n]) + [confs[n].name];
  }

  lemma {:induction false} KeysWritten(confs: seq<SwitchConf>)
    requires AllSwitchesReady(confs)
    ensures Written(map[], confs).Keys == AsSet(NameList(confs))
  {
    hide SwitchReady, FileOf, AsSet, NameList;
    if confs != [] {
      NamesSnoc(confs);
      KeysWritten(confs[..|confs| - 1]);
    } else {
      NoNames();
    }
  }

  lemma NoNames()
    ensures AsSet(NameList([])) == {}
  {
  }

  lemma {:induction false} CountNames(names: seq<string>)
    ensures |AsSet(names)| <= |names| && (|AsSet(names)| == |names| <==> Distinct(names))
  {
    if names != [] {
      var n := |names| - 1;
      var front := names[..n];
      CountNames(front);
      assert names == front + [names[n]];
      assert AsSet(names) == AsSet(front) + {names[n]};
      if names[n] in front {
        assert AsSet(names) == AsSet(front);
        var i :| 0 <= i < n && front[i] == names[n];
        assert names[i] == names[n];
      } else {
        assert forall i :: 0 <= i < n ==> names[i] == front[i];
      }
    }
  }

  /** There is a file of each switch if and only if no two switches have the same name. */
  lemma FileOfEachIff(confs: seq<SwitchConf>)
    requires AllSwitchesReady(confs)
    ensures |Written(map[], confs).Keys| == |confs| <==> Distinct(NameList(confs))
  {
    KeysWritten(confs);
    CountNames(NameList(confs));
  }

  /** A switch whose name no later one has finds its own output in its file; the output of any other is lost. */
  lemma {:induction false} LastIsKept(d: Directory, confs: seq<SwitchConf>, i: nat)
    requires AllSwitchesReady(confs) && i < |confs|
    requires forall j :: i < j < |confs| ==> confs[j].name != confs[i].name
    ensures confs[i].name in Written(d, confs) && Written(d, confs)[confs[i].name] == FileOf(confs[i]).fills
  {
    hide SwitchReady, FileOf;
    var n := |confs| - 1;
    if i < n {
      assert forall j :: 0 <= j < n ==> confs[..n][j] == confs[j];
      LastIsKept(d, confs[..n], i);
    }
  }

  /** Files of other names stay as they were. */
  lemma {:induction false} OthersStay(d: Directory, confs: seq<SwitchConf>, name: string)
    requires AllSwitchesReady(confs) && name !in NameList(confs)
    ensures name in Written(d, confs) <==> name in d
    ensures name in d ==> Written(d, confs)[name] == d[name]
  {
    hide SwitchReady, FileOf;
    if confs != [] {
      NamesSnoc(confs);
      OthersStay(d, confs[..|confs| - 1], name);
    }
  }

  // ----- a configuration from its text to the files -----

  lemma PairIsReady(v: Value)
    requires GoodPair(v)
    ensures EntryReady(PairConf(v)) && Weighted(PairConf(v).gates.value) == BaseTwo(v.items[1].digits)
  {
    GatesInBaseTwo(v.items[1].digits);
  }

  lemma PortIsReady(v: Value)
    requires GoodPort(v)
    ensures PortReady(PortConfOf(v))
  {
    hide GoodPair, PairConf, EntryReady, FieldNamed;
    var values := FieldNamed(v, "values").value.items;
    forall i | 0 <= i < |values| ensures EntryReady(PairConf(values[i])) {
      PairIsReady(values[i]);
    }
  }

  lemma SwitchIsReady(v: Value)
    requires GoodSwitch(v)
    ensures SwitchReady(SwitchConfOf(v))
  {
    hide GoodPort, PortConfOf, PortReady, FieldNamed;
    var ports := FieldNamed(v, "port_list").value.items;
    forall i | 0 <= i < |ports| ensures PortReady(PortConfOf(ports[i])) {
      PortIsReady(ports[i]);
    }
  }

  /** What is written for a port of the configuration: its number, the length of its schedule, and under index `i`
      the period that entry `i` gives and its gate digits read in base two. */
  lemma EntriesAsWritten(v: Value, cycle: nat, i: nat)
    requires GoodPort(v) && i < |FieldNamed(v, "values").value.items|
    ensures PortReady(PortConfOf(v))
    ensures var (values, fills) := (FieldNamed(v, "values").value.items, PortFills(PortConfOf(v), cycle));
      && |fills| == |values| + 2 && GoodPair(values[i])
      && fills[0] == PortStart(DigitsValue(FieldNamed(v, "port_number").value.digits), |values|)
      && fills[i + 1] == Entry(i, BaseTwo(values[i].items[1].digits), DigitsValue(values[i].items[0].digits))
      && fills[|values| + 1] == PortEnd(cycle)
  {
    hide FieldNamed, GoodPair, PairConf, EntryReady, BaseTwo, Weighted;
    PortIsReady(v);
    var pair := FieldNamed(v, "values").value.items[i];
    assert PortConfOf(v).values[i] == PairConf(pair);
    PairIsReady(pair);
    PairParts(pair);
  }

  lemma PairParts(v: Value)
    requires GoodPair(v)
    ensures PairConf(v).period == Some(DigitsValue(v.items[0].digits))
    ensures v.VArray? && |v.items| >= 2 && v.items[0].VNumber? && v.items[1].VNumber?
    ensures GateDigits(v.items[1].digits) && AllDigits(v.items[0].digits)
  {
  }

  // ----- what a file holds, by position -----

  /** Where block `k` begins when blocks of these lengths stand one after the other, each with two fills more. */
  function Offset(lengths: seq<nat>, k: nat): nat
    requires k <= |lengths|
  {
    if k == 0 then 0 else Offset(lengths, k - 1) + lengths[k - 1] + 2
  }

  function ConfLengths(ports: seq<PortConf>): (r: seq<nat>)
    ensures |r| == |ports|
  {
    seq(|ports|, i requires 0 <= i < |ports| => |ports[i].values|)
  }

  lemma {:induction false} OffsetOfPrefix(lengths: seq<nat>, n: nat, k: nat)
    requires k <= n <= |lengths|
    ensures Offset(lengths[..n], k) == Offset(lengths, k)
  {
    if k > 0 { OffsetOfPrefix(lengths, n, k - 1); }
  }

  lemma {:induction false} FillsLength(ports: seq<PortConf>, cycle: nat)
    requires forall i :: 0 <= i < |ports| ==> PortReady(ports[i])
    ensures |PortsFills(ports, cycle)| == Offset(ConfLengths(ports), |ports|)
  {
    hide PortReady, PortFills;
    if ports != [] {
      var n := |ports| - 1;
      FillsLength(ports[..n], cycle);
      LengthsOfFront(ports);
      OffsetOfPrefix(ConfLengths(ports), n, n);
      BlockLength(ports[n], cycle);
    }
  }

  lemma LengthsOfFront(ports: seq<PortConf>)
    requires ports != []
    ensures ConfLengths(ports[..|ports| - 1]) == ConfLengths(ports)[..|ports| - 1]
  {
  }

  /** The block of port `k` stands at its offset, and nothing stands behind the last one. */
  lemma {:induction false} BlockAt(ports: seq<PortConf>, cycle: nat, k: nat)
    requires (forall i :: 0 <= i < |ports| ==> PortReady(ports[i])) && k < |ports|
    ensures var (fills, o) := (PortsFills(ports, cycle), Offset(ConfLengths(ports), k));
      && |fills| == Offset(ConfLengths(ports), |ports|)
      && o + |ports[k].values| + 2 <= |fills| && fills[o..o + |ports[k].values| + 2] == PortFills(ports[k], cycle)
  {
    hide PortReady, PortFills, Offset, ConfLengths;
    var n := |ports| - 1;
    var front := ports[..n];
    FillsLength(ports, cycle);
    FillsLength(front, cycle);
    LengthsOfFront(ports);
    OffsetOfPrefix(ConfLengths(ports), n, k);
    OffsetOfPrefix(ConfLengths(ports), n, n);
    BlockLength(ports[n], cycle);
    var a, b := PortsFills(front, cycle), PortFills(ports[n], cycle);
    if k < n {
      BlockAt(front, cycle, k);
      assert front[k] == ports[k];
      var o := Offset(ConfLengths(ports), k);
      assert (a + b)[o..o + |ports[k].values| + 2] == a[o..o + |ports[k].values| + 2];
    } else {
      assert (a + b)[|a|..|a| + |b|] == b;
    }
  }

  lemma BlockLength(p: PortConf, cycle: nat)
    requires PortReady(p)
    ensures |PortFills(p, cycle)| == |p.values| + 2
  {
  }

  function PortsIn(v: Value): seq<Value>
    requires GoodSwitch(v)
  {
    FieldNamed(v, "port_list").value.items
  }

  function ValuesIn(v: Value): seq<Value>
    requires GoodPort(v)
  {
    FieldNamed(v, "values").value.items
  }

  function NameIn(v: Value): string
    requires GoodSwitch(v)
  {
    FieldNamed(v, "switch").value.s
  }

  function Lengths(v: Value): seq<nat>
    requires GoodSwitch(v)
  {
    var ports := PortsIn(v);
    seq(|ports|, i requires 0 <= i < |ports| => |ValuesIn(ports[i])|)
  }

  /** The period of the last entry of the last port. */
  function LastPeriodIn(v: Value): nat
    requires GoodSwitch(v)
  {
    var ports := PortsIn(v);
    var values := ValuesIn(ports[|ports| - 1]);
    assert GoodPair(values[|values| - 1]);
    DigitsValue(values[|values| - 1].items[0].digits)
  }

  /** From `o` on stand the port's number and length, its entries in order, and the end of the port. */
  predicate PortStandsAt(fills: seq<Fill>, o: nat, port: Value, cycle: nat)
    requires GoodPort(port)
  {
    var values := ValuesIn(port);
    && o + |values| + 2 <= |fills|
    && fills[o] == PortStart(DigitsValue(FieldNamed(port, "port_number").value.digits), |values|)
    && (forall i :: 0 <= i < |values| ==> EntryStandsAt(fills, o, i, values[i]))
    && fills[o + |values| + 1] == PortEnd(cycle)
  }

  /** Entry `i` of the port at `o` has its index, its period and its gate digits read in base two. */
  predicate EntryStandsAt(fills: seq<Fill>, o: nat, i: nat, pair: Value)
    requires GoodPair(pair)
  {
    && o + 1 + i < |fills|
    && fills[o + 1 + i] == Entry(i, BaseTwo(pair.items[1].digits), DigitsValue(pair.items[0].digits))
  }

  /** A file holds all the ports of a switch in order, and nothing else. */
  predicate Holds(fills: seq<Fill>, v: Value)
    requires GoodSwitch(v)
  {
    && |fills| == Offset(Lengths(v), |PortsIn(v)|)
    && forall k :: 0 <= k < |PortsIn(v)| ==>
         PortStandsAt(fills, Offset(Lengths(v), k), PortsIn(v)[k], LastPeriodIn(v))
  }

  lemma LengthsAgree(v: Value)
    requires GoodSwitch(v)
    ensures ConfLengths(SwitchConfOf(v).ports) == Lengths(v) && SwitchReady(SwitchConfOf(v))
    ensures LastPeriod(SwitchConfOf(v).ports) == LastPeriodIn(v) && SwitchConfOf(v).name == NameIn(v)
  {
    hide GoodPair, GoodPort, PairConf, FieldNamed, PortReady, EntryReady;
    SwitchIsReady(v);
    var ports := PortsIn(v);
    forall i | 0 <= i < |ports| ensures |PortConfOf(ports[i]).values| == |ValuesIn(ports[i])| {
      PortParts(ports[i]);
    }
    var last := ports[|ports| - 1];
    PortParts(last);
    PairParts(ValuesIn(last)[|ValuesIn(last)| - 1]);
  }

  lemma PortParts(v: Value)
    requires GoodPort(v)
    ensures ValuesIn(v) != [] && |PortConfOf(v).values| == |ValuesIn(v)|
    ensures forall i :: 0 <= i < |ValuesIn(v)| ==> GoodPair(ValuesIn(v)[i]) && PortConfOf(v).values[i] == PairConf(ValuesIn(v)[i])
  {
    hide GoodPair, PairConf, FieldNamed;
  }

  lemma BlockStands(fills: seq<Fill>, o: nat, port: Value, cycle: nat)
    requires GoodPort(port) && PortReady(PortConfOf(port)) && o + |ValuesIn(port)| + 2 <= |fills|
    requires fills[o..o + |ValuesIn(port)| + 2] == PortFills(PortConfOf(port), cycle)
    ensures PortStandsAt(fills, o, port, cycle)
  {
    hide GoodPort, GoodPair, PortFills, PortConfOf, PortReady, FieldNamed, BaseTwo;
    PortParts(port);
    var values := ValuesIn(port);
    var block := fills[o..o + |values| + 2];
    forall i | 0 <= i < |values| ensures EntryStandsAt(fills, o, i, values[i]) {
      EntriesAsWritten(port, cycle, i);
      assert block[i + 1] == fills[o + 1 + i];
    }
    EntriesAsWritten(port, cycle, 0);
    assert block[0] == fills[o] && block[|values| + 1] == fills[o + |values| + 1];
  }

  /** The file that is written for a switch holds all its ports. */
  lemma FileHolds(v: Value)
    requires GoodSwitch(v)
    ensures SwitchReady(SwitchConfOf(v)) && Holds(FileOf(SwitchConfOf(v)).fills, v)
  {
    hide GoodPort, PortStandsAt, PortFills, PortsFills, PortReady, FieldNamed, Offset, ConfLengths, LastPeriod, LastPeriodIn, PortConfOf;
    LengthsAgree(v);
    var ports := PortsIn(v);
    var confs := SwitchConfOf(v).ports;
    var fills := FileOf(SwitchConfOf(v)).fills;
    BlockAt(confs, LastPeriodIn(v), 0);
    forall k | 0 <= k < |ports| ensures PortStandsAt(fills, Offset(Lengths(v), k), ports[k], LastPeriodIn(v)) {
      BlockAt(confs, LastPeriodIn(v), k);
      PortSize(ports[k]);
      BlockStands(fills, Offset(Lengths(v), k), ports[k], LastPeriodIn(v));
    }
  }

  lemma PortSize(v: Value)
    requires GoodPort(v)
    ensures |PortConfOf(v).values| == |ValuesIn(v)| && PortReady(PortConfOf(v))
  {
    PortParts(v);
    PortIsReady(v);
  }

  lemma ConfigReady(v: Value)
    requires GoodConfig(v)
    ensures AllSwitchesReady(ConfigOf(v)) && forall i :: 0 <= i < |ConfigOf(v)| ==> ConfigOf(v)[i].ports != []
  {
    hide GoodSwitch, SwitchConfOf, SwitchReady;
    forall i | 0 <= i < |v.items| ensures SwitchReady(ConfigOf(v)[i]) && ConfigOf(v)[i].ports != [] {
      SwitchIsReady(v.items[i]);
      HasPorts(v.items[i]);
    }
  }

  /** No later switch has the name of switch `i`. */
  predicate LastOfName(v: Value, i: nat)
    requires GoodConfig(v) && i < |v.items|
  {
    forall j :: i < j < |v.items| ==> NameIn(v.items[j]) != NameIn(v.items[i])
  }

  /** The directory of a configuration: the file of each name holds the ports of the last switch of that name, and
      files of other names are as they were. */
  ghost predicate Configured(v: Value, d: Directory, d': Directory)
    requires GoodConfig(v)
  {
    && (forall i :: 0 <= i < |v.items| && LastOfName(v, i) ==>
          NameIn(v.items[i]) in d' && Holds(d'[NameIn(v.items[i])], v.items[i]))
    && (forall name :: (forall i :: 0 <= i < |v.items| ==> NameIn(v.items[i]) != name) ==>
          (name in d' <==> name in d) && (name in d ==> d'[name] == d[name]))
  }

  lemma WrittenIsConfigured(v: Value, d: Directory)
    requires GoodConfig(v)
    ensures AllSwitchesReady(ConfigOf(v)) && Configured(v, d, Written(d, ConfigOf(v)))
  {
    hide GoodSwitch, SwitchConfOf, SwitchReady, Holds, Written, FileOf, NameIn;
    ConfigReady(v);
    var confs := ConfigOf(v);
    forall i | 0 <= i < |v.items| ensures confs[i].name == NameIn(v.items[i]) { LengthsAgree(v.items[i]); }
    forall i | 0 <= i < |v.items| && LastOfName(v, i)
      ensures NameIn(v.items[i]) in Written(d, confs) && Holds(Written(d, confs)[NameIn(v.items[i])], v.items[i])
    {
      LastIsKept(d, confs, i);
      FileHolds(v.items[i]);
    }
    forall name | forall i :: 0 <= i < |v.items| ==> NameIn(v.items[i]) != name
      ensures name in Written(d, confs) <==> name in d
      ensures name in d ==> Written(d, confs)[name] == d[name]
    {
      OthersStay(d, confs, name);
    }
  }

  /** `main`: every text of a well-formed configuration is turned into the files of its switches, and all that was
      allocated is freed. */
  method Configure(text: string, d: Directory, heap: Allocator, ghost e: Element) returns (d': Directory)
    requires ElementOk(e) && text == ShowElement(e)
    requires GoodConfig(Denote(e.body)) && Denote(e.body).items != []
    modifies heap
    ensures heap.live == old(heap.live)
    ensures AllSwitchesReady(ConfigOf(Denote(e.body))) && d' == Written(d, ConfigOf(Denote(e.body)))
    ensures Configured(Denote(e.body), d, d')
  {
    hide Parse, Walk, ShortNames, SwitchesAre, AllSwitchesReady, Written, GoodSwitch, ShowElement, Denote, TreeOf, Configured;
    ghost var v := Denote(e.body);
    Completeness(e);
    ConfigRead(v);
    ConfigNamesFit(v);
    ConfigReady(v);
    WrittenIsConfigured(v, d);
    var list, ok, y, cut := LoadConfig(text, heap);
    d' := WriteInstance(list, d, y, ConfigOf(v));
    FreeSwitches(list, heap, y, ConfigOf(v));
  }

  /** So a well-formed configuration gives a file of each of its switches if and only if their names are distinct. */
  lemma ConfigFilesIff(v: Value)
    requires GoodConfig(v)
    ensures AllSwitchesReady(ConfigOf(v))
    ensures |Written(map[], ConfigOf(v)).Keys| == |v.items| <==> Distinct(NameList(ConfigOf(v)))
  {
    hide Written, Distinct, GoodSwitch, AllSwitchesReady;
    ConfigReady(v);
    FileOfEachIff(ConfigOf(v));
  }

  lemma HasPorts(v: Value)
    requires GoodSwitch(v)
    ensures SwitchConfOf(v).ports != []
  {
    hide GoodPort, PortConfOf, FieldNamed;
  }
}
