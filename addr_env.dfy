/**
 * Start-up parsing of the -addr-env flag into the forwarder table: the flag
 * is split on ',', each item at its first ':', the remainder is parsed with
 * strconv.Atoi and truncated to uint16, and a forwarder is stored under that
 * port, a later item replacing an earlier one with the same port. Either
 * syntax error is fatal; here it is the error result.
 */
module AddrEnv {
  import opened Wrappers
  import opened Strings
  import opened Strconv
  import opened Ports
  import opened Forwarding

  datatype ParseError =
    | MissingPort   // "Syntax error: addr-env pair missing port."
    | PortInvalid   // "Syntax error: addr-env pair port invalid."

  /** One accepted item: the variable name and the truncated source port. */
  datatype Entry = Entry(env: string, port: u16)

  /** One item of the flag. */
  function ParseItem(item: string): (r: Result<Entry, ParseError>)
    ensures r == Err(MissingPort) <==> ':' !in item
    ensures r.Ok? ==>
      var n := |r.value.env|;
      && ':' !in r.value.env
      && n < |item| && item[..n] == r.value.env && item[n] == ':'
      && Atoi(item[n + 1..]).Some?
      && r.value.port == U16(Atoi(item[n + 1..]).value)
  {
    var parts := SplitN2(item, ':');
    if |parts| != 2 then Err(MissingPort)
    else
      assert item == parts[0] + [':'] + parts[1];
      assert item[..|parts[0]|] == parts[0] && item[|parts[0]| + 1..] == parts[1];
      match Atoi(parts[1])
      case None => Err(PortInvalid)
      case Some(p) => Ok(Entry(parts[0], U16(p)))
  }

  /**
   * Every item holding a ':' is a name free of ':' followed by ':' and a
   * port text; its result is decided by Atoi on that text alone.
   */
  lemma ParseItemSplit(env: string, text: string)
    requires ':' !in env
    ensures ParseItem(env + ":" + text) ==
      match Atoi(text)
      case None => Err(PortInvalid)
      case Some(p) => Ok(Entry(env, U16(p)))
  {
    SplitN2Unique(env, text, ':');
  }

  /** A second ':' in an item makes its port invalid. */
  lemma SecondColonInvalid(env: string, text: string)
    requires ':' !in env && ':' in text
    ensures ParseItem(env + ":" + text) == Err(PortInvalid)
  {
    ParseItemSplit(env, text);
    AtoiRejectsColon(text);
  }

  /** The item "NAME:PORT" written with a decimal port parses back to NAME and PORT. */
  lemma ParseFormattedItem(env: string, port: u16)
    requires ':' !in env
    ensures ParseItem(env + ":" + FormatDecimal(port)) == Ok(Entry(env, port))
  {
    ParseItemSplit(env, FormatDecimal(port));
    AtoiFormatDecimal(port);
  }

  /** A negative port wraps: "-1" is port 65535. */
  lemma NegativePortWraps(env: string)
    requires ':' !in env
    ensures ParseItem(env + ":-1") == Ok(Entry(env, 0xFFFF))
  {
    AtoiExamples();
    assert env + ":-1" == env + ":" + "-1";
    ParseItemSplit(env, "-1");
  }

  /** A port past 16 bits wraps: "65536" is port 0. */
  lemma LargePortWraps(env: string)
    requires ':' !in env
    ensures ParseItem(env + ":65536") == Ok(Entry(env, 0))
  {
    AtoiExamples();
    assert env + ":65536" == env + ":" + "65536";
    ParseItemSplit(env, "65536");
  }

  /** The result of each item, in order. */
  function Parsed(items: seq<string>): (rs: seq<Result<Entry, ParseError>>)
    ensures |rs| == |items| && forall i :: 0 <= i < |items| ==> rs[i] == ParseItem(items[i])
  {
    seq(|items|, i requires 0 <= i < |items| => ParseItem(items[i]))
  }

  /** The table the insertion loop builds from the item results: each port
      mapped to the name of the last entry with that port, or the first error. */
  function Collect(rs: seq<Result<Entry, ParseError>>): (r: Result<map<u16, string>, ParseError>) {
    if rs == [] then Ok(map[])
    else
      match Collect(rs[..|rs| - 1])
      case Err(e) => Err(e)
      case Ok(m) =>
        match rs[|rs| - 1]
        case Err(e) => Err(e)
        case Ok(entry) => Ok(m[entry.port := entry.env])
  }

  /** The whole -addr-env flag. */
  function ParseAddrEnvs(addrEnvs: string): (r: Result<map<u16, string>, ParseError>) {
    Collect(Parsed(Split(addrEnvs, ',')))
  }

  /** An empty flag is one empty item, which has no port. */
  lemma EmptyFlagMissingPort()
    ensures ParseAddrEnvs("") == Err(MissingPort)
  {
    assert Split("", ',') == [""];
    var rs := Parsed([""]);
    assert rs[0] == Err(MissingPort);
    assert rs[..0] == [];
  }

  /** The table is built iff every item parses. */
  lemma {:induction false} CollectOk(rs: seq<Result<Entry, ParseError>>)
    ensures Collect(rs).Ok? <==> forall i :: 0 <= i < |rs| ==> rs[i].Ok?
  {
    if rs != [] {
      var init := rs[..|rs| - 1];
      CollectOk(init);
      assert forall i :: 0 <= i < |init| ==> init[i] == rs[i];
    }
  }

  /** Once a prefix has failed, the error is final. */
  lemma {:induction false} ErrorPersists(rs: seq<Result<Entry, ParseError>>, n: nat)
    requires n <= |rs| && Collect(rs[..n]).Err?
    ensures Collect(rs) == Collect(rs[..n])
    decreases |rs| - n
  {
    if n < |rs| {
      assert rs[..n + 1][..n] == rs[..n];
      ErrorPersists(rs, n + 1);
    } else {
      assert rs[..n] == rs;
    }
  }

  /** The error reported is that of the first item that fails. */
  lemma {:induction false} CollectError(rs: seq<Result<Entry, ParseError>>, e: ParseError)
    ensures Collect(rs) == Err(e) <==>
      exists i :: 0 <= i < |rs| && rs[i] == Err(e) && forall j :: 0 <= j < i ==> rs[j].Ok?
  {
    if rs != [] {
      var last := |rs| - 1;
      var init := rs[..last];
      CollectError(init, e);
      CollectOk(init);
      assert forall i :: 0 <= i < |init| ==> init[i] == rs[i];
      if exists i :: 0 <= i < |rs| && rs[i] == Err(e) && forall j :: 0 <= j < i ==> rs[j].Ok? {
        var i :| 0 <= i < |rs| && rs[i] == Err(e) && forall j :: 0 <= j < i ==> rs[j].Ok?;
        if i < last {
          assert Collect(init) == Err(e);
        } else {
          assert Collect(init).Ok?;
        }
      }
    }
  }

  /**
   * A built table holds exactly the ports of the entries, and each port is
   * mapped to the name given by the last entry with that port.
   */
  lemma {:induction false} CollectContents(rs: seq<Result<Entry, ParseError>>, m: map<u16, string>, k: u16)
    requires Collect(rs) == Ok(m)
    ensures k in m <==> exists i :: 0 <= i < |rs| && rs[i].Ok? && rs[i].value.port == k
    ensures k in m ==>
      (exists i :: 0 <= i < |rs| && rs[i] == Ok(Entry(m[k], k)) &&
        forall j :: i < j < |rs| ==> rs[j].Ok? && rs[j].value.port != k)
  {
    if rs != [] {
      var last := |rs| - 1;
      var init := rs[..last];
      var m0 := Collect(init).value;
      var entry := rs[last].value;
      assert m == m0[entry.port := entry.env];
      assert forall i :: 0 <= i < |init| ==> init[i] == rs[i];
      CollectContents(init, m0, k);
      if entry.port == k {
        assert rs[last] == Ok(Entry(m[k], k));
      } else if k in m {
        var i :| 0 <= i < |init| && init[i] == Ok(Entry(m0[k], k)) &&
          forall j :: i < j < |init| ==> init[j].Ok? && init[j].value.port != k;
        assert rs[i] == Ok(Entry(m[k], k));
      }
    }
  }

  /**
   * The forwarder map built at start-up: one fresh forwarder per port of the
   * parsed table, stored under that port, named as the table says, with a
   * zero destination and the shared allocator.
   */
  method BuildPortMap(addrEnvs: string, allocator: PortAllocator)
    returns (r: Result<map<u16, PortForwarder>, ParseError>)
    ensures r.Err? ==> ParseAddrEnvs(addrEnvs) == Err(r.error)
    ensures r.Ok? ==> ParseAddrEnvs(addrEnvs).Ok?
    ensures r.Ok? ==>
      var table := ParseAddrEnvs(addrEnvs).value;
      && r.value.Keys == table.Keys
      && Keyed(r.value, allocator)
      && forall k :: k in r.value ==> r.value[k].env == table[k] && r.value[k].dest == 0 && fresh(r.value[k])
  {
    var items := Split(addrEnvs, ',');
    ghost var rs := Parsed(items);
    var portMap: map<u16, PortForwarder> := map[];
    var i := 0;
    while i < |items|
      invariant 0 <= i <= |items|
      invariant Collect(rs[..i]).Ok?
      invariant portMap.Keys == Collect(rs[..i]).value.Keys && Keyed(portMap, allocator)
      invariant forall k :: k in portMap ==>
        portMap[k].env == Collect(rs[..i]).value[k] && portMap[k].dest == 0 && fresh(portMap[k])
    {
      assert rs[..i + 1][..i] == rs[..i];
      var item := ParseItem(items[i]);
      assert rs[i] == item;
      if item.Err? {
        ErrorPersists(rs, i + 1);
        return Err(item.error);
      }
      ghost var before := Collect(rs[..i]).value;
      assert Collect(rs[..i + 1]) == Ok(before[item.value.port := item.value.env]);
      var forwarder := new PortForwarder(item.value.env, item.value.port, allocator);
      portMap := portMap[item.value.port := forwarder];
      i := i + 1;
    }
    assert rs[..i] == rs;
    r := Ok(portMap);
  }
}
