/**
The messages between the gateway and its server: a message is printed into a
JSON payload, and parsed back from one. Lists are absent, a single node, or an
array.
*/
module Rcs {

  import opened Wrappers

  /** A JSON value with the name it has in its parent. */
  datatype Json =
    | Node(name: string, children: seq<Json>)
    | Array(name: string, children: seq<Json>)
    | Text(name: string, text: string)
    | Number(name: string, number: nat)
    | Null(name: string)

  const MSG_ID := "msg_id"
  const MSG_TYPE := "msg_type"
  const SECRET := "secret_code"
  const TIME := "time"
  const REQ_ID := "req_id"
  const GATEWAY_FIELDS := "gateway_fields"
  const GATEWAY := "gateway"
  const DEVICE_FIELDS := "device_fields"
  const DEVICE := "device"
  const ENDPOINT_FIELDS := "endpoint_fields"
  const ENDPOINT := "endpoint"
  const DATA := "data"
  const RULE := "rule"

  /** The items of a payload in the order in which they are printed. */
  const TITLES := [MSG_ID, MSG_TYPE, SECRET, TIME, REQ_ID, GATEWAY_FIELDS, GATEWAY, DEVICE_FIELDS, DEVICE,
                   ENDPOINT_FIELDS, ENDPOINT, DATA, RULE]

  lemma TitlesDistinct()
    ensures |TITLES| == 13
    ensures forall i, j :: 0 <= i < j < 13 ==> TITLES[i] != TITLES[j]
  {
    var key: (string) -> (nat, char) := s => (|s|, if s == "" then ' ' else s[0]);
    assert key(MSG_ID) == (6, 'm') && key(REQ_ID) == (6, 'r') && key(DEVICE) == (6, 'd');
    assert key(TIME) == (4, 't') && key(DATA) == (4, 'd') && key(RULE) == (4, 'r');
    assert key(MSG_TYPE) == (8, 'm') && key(ENDPOINT) == (8, 'e');
    assert key(SECRET) == (11, 's') && key(GATEWAY) == (7, 'g');
    assert key(GATEWAY_FIELDS) == (14, 'g') && key(DEVICE_FIELDS) == (13, 'd') && key(ENDPOINT_FIELDS) == (15, 'e');
  }

  // ---------------------------------------------------------------------------
  // JSON
  // ---------------------------------------------------------------------------

  function Named(j: Json, name: string): Json {
    match j
    case Node(_, children) => Node(name, children)
    case Array(_, children) => Array(name, children)
    case Text(_, text) => Text(name, text)
    case Number(_, number) => Number(name, number)
    case Null(_) => Null(name)
  }

  /** Equal but for the names of the items. */
  predicate Same(a: seq<Json>, b: seq<Json>) {
    |a| == |b| && forall i :: 0 <= i < |a| ==> Named(a[i], "") == Named(b[i], "")
  }

  /** The position of the first child with this name, or the number of children. */
  function Position(children: seq<Json>, name: string): (n: nat)
    ensures n <= |children|
    ensures forall i :: 0 <= i < n ==> children[i].name != name
    ensures n < |children| ==> children[n].name == name
  {
    if children == [] || children[0].name == name then 0 else 1 + Position(children[1..], name)
  }

  function Find(children: seq<Json>, name: string): Option<Json> {
    var n := Position(children, name);
    if n < |children| then Some(children[n]) else None
  }

  lemma FindAppend(a: seq<Json>, b: seq<Json>, name: string)
    ensures Find(a + b, name) == if Find(a, name).Some? then Find(a, name) else Find(b, name)
  {
    hide Position;
    var n, m, k := Position(a, name), Position(b, name), Position(a + b, name);
    assert n < |a| ==> (a + b)[n] == a[n];
    assert forall i :: 0 <= i < n ==> (a + b)[i] == a[i];
    assert m < |b| ==> (a + b)[|a| + m] == b[m];
    assert n == |a| ==> forall i :: n <= i < n + m ==> (a + b)[i] == b[i - n];
    assert k == if n < |a| then n else |a| + m;
  }

  // ---------------------------------------------------------------------------
  // Times
  // ---------------------------------------------------------------------------

  function Decimal(n: nat): string {
    if n < 10 then [('0' as int + n) as char] else Decimal(n / 10) + [('0' as int + n % 10) as char]
  }

  /** The number that a text consists of, up to the first character that is not a digit. */
  function AsInt(text: string, n: nat): nat
    decreases |text|
  {
    if text == "" || !('0' <= text[0] <= '9') then n else AsInt(text[1..], 10 * n + (text[0] as int - '0' as int))
  }

  lemma {:induction false} AsIntAppend(a: string, c: char, n: nat)
    requires forall i :: 0 <= i < |a| ==> '0' <= a[i] <= '9'
    requires '0' <= c <= '9'
    ensures AsInt(a + [c], n) == 10 * AsInt(a, n) + (c as int - '0' as int)
    decreases |a|
  {
    if a == "" {
      assert AsInt([c], n) == AsInt([c][1..], 10 * n + (c as int - '0' as int));
    } else {
      assert (a + [c])[1..] == a[1..] + [c];
      AsIntAppend(a[1..], c, 10 * n + (a[0] as int - '0' as int));
    }
  }

  lemma {:induction false} AsIntDecimal(n: nat)
    ensures AsInt(Decimal(n), 0) == n
    ensures forall i :: 0 <= i < |Decimal(n)| ==> '0' <= Decimal(n)[i] <= '9'
  {
    if n < 10 {
      assert AsInt(Decimal(n), 0) == AsInt(Decimal(n)[1..], n);
    } else {
      AsIntDecimal(n / 10);
      AsIntAppend(Decimal(n / 10), ('0' as int + n % 10) as char, 0);
    }
  }

  function NumberIn(j: Json): nat {
    match j
    case Number(_, number) => number
    case Text(_, text) => AsInt(text, 0)
    case _ => 0
  }

  // ---------------------------------------------------------------------------
  // Messages
  // ---------------------------------------------------------------------------

  datatype Message = Message(msgId: string, msgType: string, time: nat, reqId: string,
                             gatewayFields: nat, deviceFields: nat, endpointFields: nat,
                             gateways: seq<Json>, devices: seq<Json>, endpoints: seq<Json>,
                             epdata: seq<Json>, rules: seq<Json>)

  /** How a list is printed under a title. */
  function Listed(title: string, list: seq<Json>): (items: seq<Json>)
    ensures |items| == if list == [] then 0 else 1
  {
    if list == [] then [] else if |list| == 1 then [Named(list[0], title)] else [Array(title, list)]
  }

  function Flagged(title: string, fields: nat): (items: seq<Json>)
    ensures |items| <= 1
  {
    if fields == 0 then [] else [Number(title, fields)]
  }

  /** The item that a message prints at a position of its payload, if any. A list of rules longer than one is
      printed under the title of the endpoint data. */
  function Slot(m: Message, secret: string, i: nat): (items: seq<Json>)
    requires i < 13
    ensures |items| <= 1
  {
    match i
    case 0 => [Text(MSG_ID, m.msgId)]
    case 1 => [Text(MSG_TYPE, m.msgType)]
    case 2 => [Text(SECRET, secret)]
    case 3 => [Text(TIME, Decimal(m.time))]
    case 4 => if m.reqId == "" then [] else [Text(REQ_ID, m.reqId)]
    case 5 => Flagged(GATEWAY_FIELDS, m.gatewayFields)
    case 6 => Listed(GATEWAY, m.gateways)
    case 7 => Flagged(DEVICE_FIELDS, m.deviceFields)
    case 8 => Listed(DEVICE, m.devices)
    case 9 => Flagged(ENDPOINT_FIELDS, m.endpointFields)
    case 10 => Listed(ENDPOINT, m.endpoints)
    case 11 => Listed(DATA, m.epdata)
    case _ => if |m.rules| > 1 then Listed(DATA, m.rules) else Listed(RULE, m.rules)
  }

  function Slots(m: Message, secret: string, n: nat): seq<Json>
    requires n <= 13
  {
    if n == 0 then [] else Slots(m, secret, n - 1) + Slot(m, secret, n - 1)
  }

  function Payload(m: Message, secret: string): seq<Json> {
    Slots(m, secret, 13)
  }

  lemma SlotsNext(m: Message, secret: string, n: nat)
    requires n < 13
    ensures Slots(m, secret, n + 1) == Slots(m, secret, n) + Slot(m, secret, n)
  {
  }

  function Title(m: Message, i: nat): string
    requires i < 13
  {
    if i == 12 && |m.rules| > 1 then DATA else TITLES[i]
  }

  lemma SlotTitle(m: Message, secret: string, i: nat)
    requires i < 13
    ensures Slot(m, secret, i) != [] ==> Slot(m, secret, i)[0].name == Title(m, i)
    ensures i == 12 && |m.rules| > 1 ==> Slot(m, secret, i) != []
  {
  }

  /** What is found under a title: its own item, or, under the title of the endpoint data, a long list of rules. */
  lemma {:induction false} FindSlot(m: Message, secret: string, n: nat, k: nat)
    requires n <= 13 && k < 13
    ensures Find(Slots(m, secret, n), TITLES[k]) ==
      if k < n && Slot(m, secret, k) != [] && Title(m, k) == TITLES[k] then Some(Slot(m, secret, k)[0])
      else if k == 11 && n == 13 && |m.rules| > 1 then Some(Slot(m, secret, 12)[0])
      else None
  {
    hide Slot, Find;
    if n == 0 {
      FindOne([], TITLES[k]);
    } else {
      var i := n - 1;
      FindSlot(m, secret, i, k);
      SlotsNext(m, secret, i);
      FindAppend(Slots(m, secret, i), Slot(m, secret, i), TITLES[k]);
      SlotTitle(m, secret, i);
      FindOne(Slot(m, secret, i), TITLES[k]);
      TitlesDistinct();
      TitleIs(m, i, k);
    }
  }

  lemma FindOne(items: seq<Json>, name: string)
    requires |items| <= 1
    ensures Find(items, name) == if items != [] && items[0].name == name then Some(items[0]) else None
  {
  }

  lemma TitleIs(m: Message, i: nat, k: nat)
    requires i < 13 && k < 13
    ensures Title(m, i) == TITLES[k] <==> if i == 12 && |m.rules| > 1 then k == 11 else i == k
  {
    TitlesDistinct();
    assert TITLES[11] == DATA;
  }

  // ---------------------------------------------------------------------------
  // Parsing
  // ---------------------------------------------------------------------------

  /** What is asked for when a payload does not say which properties. */
  const PROPERTY_STATIC_FLAG := 0x3C3FFFBF

  function TextIn(item: Option<Json>): Option<string> {
    match item
    case Some(Text(_, text)) => Some(text)
    case _ => None
  }

  function TimeIn(item: Option<Json>): Option<nat> {
    match item
    case Some(Text(_, text)) => Some(AsInt(text, 0))
    case Some(Number(_, number)) => Some(number)
    case _ => None
  }

  function FieldsIn(item: Option<Json>): nat {
    match item
    case Some(j) => NumberIn(j)
    case None => PROPERTY_STATIC_FLAG
  }

  /** The list that an item stands for; anything but a node or an array is an error. */
  function ListIn(item: Option<Json>): Option<seq<Json>> {
    match item
    case None => Some([])
    case Some(Node(name, children)) => Some([Node(name, children)])
    case Some(Array(_, children)) => Some(children)
    case _ => None
  }

  function Parse(payload: Json): Result<Message> {
    var c := if payload.Node? then payload.children else [];
    var msgId, msgType, time := TextIn(Find(c, MSG_ID)), TextIn(Find(c, MSG_TYPE)), TimeIn(Find(c, TIME));
    var gateways, devices, endpoints := ListIn(Find(c, GATEWAY)), ListIn(Find(c, DEVICE)), ListIn(Find(c, ENDPOINT));
    var epdata, rules, reqId := ListIn(Find(c, DATA)), ListIn(Find(c, RULE)), TextIn(Find(c, REQ_ID));
    if msgId.None? then InvalidArgument("RCS message id is invalid!")
    else if msgType.None? then InvalidArgument("RCS message type is invalid!")
    else if time.None? then InvalidArgument("RCS message time is invalid!")
    else if gateways.None? then InvalidArgument("RCS message gateway is invalid!")
    else if devices.None? then InvalidArgument("RCS message device is invalid!")
    else if endpoints.None? || epdata.None? || rules.None? then InvalidArgument("RCS message endpoint is invalid!")
    else Ok(Message(msgId.value, msgType.value, time.value, if reqId.Some? then reqId.value else "",
                    FieldsIn(Find(c, GATEWAY_FIELDS)), FieldsIn(Find(c, DEVICE_FIELDS)),
                    FieldsIn(Find(c, ENDPOINT_FIELDS)),
                    gateways.value, devices.value, endpoints.value, epdata.value, rules.value))
  }

  predicate IsText(item: Option<Json>) { item.Some? && item.value.Text? }

  predicate IsTime(item: Option<Json>) { item.Some? && (item.value.Text? || item.value.Number?) }

  predicate IsList(item: Option<Json>) { item.None? || item.value.Node? || item.value.Array? }

  /** Which payloads are parsed. */
  lemma ParsedIff(payload: Json)
    ensures var c := if payload.Node? then payload.children else [];
      Parse(payload).Ok? <==>
      && IsText(Find(c, "msg_id")) && IsText(Find(c, "msg_type")) && IsTime(Find(c, "time"))
      && IsList(Find(c, "gateway")) && IsList(Find(c, "device")) && IsList(Find(c, "endpoint"))
      && IsList(Find(c, "data")) && IsList(Find(c, "rule"))
  {
    hide AsInt, Find, NumberIn;
  }

  /** The error is that of the first item that is missing or of a wrong type. */
  lemma ParseErrors(payload: Json)
    ensures var c := if payload.Node? then payload.children else [];
            var r := Parse(payload);
      && (r == InvalidArgument("RCS message id is invalid!") <==> !IsText(Find(c, "msg_id")))
      && (r == InvalidArgument("RCS message type is invalid!") <==>
            IsText(Find(c, "msg_id")) && !IsText(Find(c, "msg_type")))
      && (r == InvalidArgument("RCS message time is invalid!") <==>
            IsText(Find(c, "msg_id")) && IsText(Find(c, "msg_type")) && !IsTime(Find(c, "time")))
  {
    hide AsInt, Find, NumberIn;
    ErrorsDiffer();
  }

  /** What is parsed is what the items say. */
  lemma ParsedItems(payload: Json)
    requires payload.Node? && Parse(payload).Ok?
    ensures var c, m := payload.children, Parse(payload).value;
      && Find(c, "msg_id") == Some(Text("msg_id", m.msgId))
      && Find(c, "msg_type") == Some(Text("msg_type", m.msgType))
      && m.time == NumberIn(Find(c, "time").value)
      && m.reqId == (if IsText(Find(c, "req_id")) then Find(c, "req_id").value.text else "")
      && (Find(c, "gateway_fields").None? ==> m.gatewayFields == 0x3C3FFFBF)
      && (Find(c, "device_fields").None? ==> m.deviceFields == 0x3C3FFFBF)
      && (Find(c, "endpoint_fields").None? ==> m.endpointFields == 0x3C3FFFBF)
  {
    hide AsInt, Find;
    FoundName(payload.children, "msg_id");
    FoundName(payload.children, "msg_type");
  }

  /** Times and property fields may be numbers or decimal texts of them. */
  lemma NumbersAsText(name: string, n: nat)
    ensures TimeIn(Some(Number(name, n))) == TimeIn(Some(Text(name, Decimal(n)))) == Some(n)
    ensures FieldsIn(Some(Number(name, n))) == FieldsIn(Some(Text(name, Decimal(n)))) == n
  {
    hide AsInt, Decimal;
    AsIntDecimal(n);
  }

  lemma FoundName(c: seq<Json>, name: string)
    ensures Find(c, name).Some? ==> Find(c, name).value.name == name
  {
  }

  /** The messages of the errors differ in their thirteenth character. */
  lemma ErrorsDiffer()
    ensures "RCS message id is invalid!"[12] == 'i' && "RCS message type is invalid!"[13] == 'y'
    ensures "RCS message type is invalid!"[12] == 't' && "RCS message time is invalid!"[13] == 'i'
    ensures "RCS message time is invalid!"[12] == 't' && "RCS message gateway is invalid!"[12] == 'g'
    ensures "RCS message device is invalid!"[12] == 'd' && "RCS message endpoint is invalid!"[12] == 'e'
  {
  }

  // ---------------------------------------------------------------------------
  // Printing and parsing
  // ---------------------------------------------------------------------------

  /** A list that survives: a single item must be a node, since it is printed without an array around it. */
  predicate Printable(list: seq<Json>) {
    |list| == 1 ==> list[0].Node?
  }

  /** The list that comes back for a list printed under a title. */
  function Back(title: string, list: seq<Json>): Option<seq<Json>> {
    ListIn(First(Listed(title, list)))
  }

  function First(items: seq<Json>): Option<Json> {
    if items == [] then None else Some(items[0])
  }

  lemma NotItsOwnChild(j: Json)
    ensures j.Array? && |j.children| == 1 ==> j.children[0] != j
  {
  }

  lemma NotNested(children: seq<Json>)
    requires |children| == 1 && children[0].Array?
    ensures children[0].children != children
  {
    NotItsOwnChild(children[0]);
  }

  lemma BackIff(title: string, list: seq<Json>)
    ensures Printable(list) <==> Back(title, list).Some? && Same(Back(title, list).value, list)
  {
    if |list| == 1 {
      match list[0]
      case Array(_, children) =>
        if |children| == 1 && children[0].Array? {
          NotNested(children);
          assert Named(children[0], "") == Array("", children[0].children);
        }
      case _ =>
    }
  }

  /** Fields of zero are not printed, and then read as the default. */
  function Defaulted(fields: nat): nat {
    if fields == 0 then PROPERTY_STATIC_FLAG else fields
  }

  lemma FlaggedBack(title: string, fields: nat)
    ensures FieldsIn(First(Flagged(title, fields))) == Defaulted(fields)
  {
  }

  /** The message that was printed, up to the names of the items of its lists and default fields. */
  predicate Recovers(m: Message, r: Message) {
    && r.msgId == m.msgId && r.msgType == m.msgType && r.time == m.time && r.reqId == m.reqId
    && r.gatewayFields == Defaulted(m.gatewayFields)
    && r.deviceFields == Defaulted(m.deviceFields)
    && r.endpointFields == Defaulted(m.endpointFields)
    && Same(r.gateways, m.gateways) && Same(r.devices, m.devices) && Same(r.endpoints, m.endpoints)
    && Same(r.epdata, m.epdata) && Same(r.rules, m.rules)
  }

  lemma FindItem(m: Message, secret: string, k: nat)
    requires k < 13
    ensures Find(Payload(m, secret), TITLES[k]) ==
      if k == 12 && |m.rules| > 1 then None
      else if k == 11 && m.epdata == [] && |m.rules| > 1 then Some(Array(DATA, m.rules))
      else First(Slot(m, secret, k))
  {
    hide Find, Slots;
    FindSlot(m, secret, 13, k);
    TitleIs(m, k, k);
    if |m.rules| > 1 {
      assert Slot(m, secret, 12) == [Array(DATA, m.rules)];
      assert Slot(m, secret, 11) == Listed(DATA, m.epdata);
      TitleIs(m, 12, 12);
    }
  }

  /** What is found under every title of a printed message. */
  lemma FindAll(m: Message, secret: string)
    ensures var p := Payload(m, secret);
      && Find(p, MSG_ID) == Some(Text(MSG_ID, m.msgId))
      && Find(p, MSG_TYPE) == Some(Text(MSG_TYPE, m.msgType))
      && Find(p, TIME) == Some(Text(TIME, Decimal(m.time)))
      && Find(p, REQ_ID) == (if m.reqId == "" then None else Some(Text(REQ_ID, m.reqId)))
      && Find(p, GATEWAY_FIELDS) == First(Flagged(GATEWAY_FIELDS, m.gatewayFields))
      && Find(p, DEVICE_FIELDS) == First(Flagged(DEVICE_FIELDS, m.deviceFields))
      && Find(p, ENDPOINT_FIELDS) == First(Flagged(ENDPOINT_FIELDS, m.endpointFields))
      && Find(p, GATEWAY) == First(Listed(GATEWAY, m.gateways))
      && Find(p, DEVICE) == First(Listed(DEVICE, m.devices))
      && Find(p, ENDPOINT) == First(Listed(ENDPOINT, m.endpoints))
      && Find(p, DATA)
         == (if m.epdata == [] && |m.rules| > 1 then Some(Array(DATA, m.rules)) else First(Listed(DATA, m.epdata)))
      && Find(p, RULE) == (if |m.rules| > 1 then None else First(Listed(RULE, m.rules)))
  {
    hide Find, Payload, Listed, Flagged, Decimal;
    FindItem(m, secret, 0);
    FindItem(m, secret, 1);
    FindItem(m, secret, 3);
    FindItem(m, secret, 4);
    FindItem(m, secret, 5);
    FindItem(m, secret, 6);
    FindItem(m, secret, 7);
    FindItem(m, secret, 8);
    FindItem(m, secret, 9);
    FindItem(m, secret, 10);
    FindItem(m, secret, 11);
    FindItem(m, secret, 12);
  }

  /** A printed message is parsed back exactly if every list of one item holds a node and there is at most one rule. */
  lemma RoundTripIff(m: Message, secret: string, name: string)
    ensures var r := Parse(Node(name, Payload(m, secret)));
      r.Ok? && Recovers(m, r.value)
      <==> Printable(m.gateways) && Printable(m.devices) && Printable(m.endpoints) && Printable(m.epdata)
           && Printable(m.rules) && |m.rules| <= 1
  {
    hide Find, Payload, Listed, Flagged, Decimal, AsInt, Printable, Same, ListIn, FieldsIn, First;
    FindAll(m, secret);
    AsIntDecimal(m.time);
    FlaggedBack(GATEWAY_FIELDS, m.gatewayFields);
    FlaggedBack(DEVICE_FIELDS, m.deviceFields);
    FlaggedBack(ENDPOINT_FIELDS, m.endpointFields);
    BackIff(GATEWAY, m.gateways);
    BackIff(DEVICE, m.devices);
    BackIff(ENDPOINT, m.endpoints);
    BackIff(DATA, m.epdata);
    BackIff(RULE, m.rules);
    ManyRules(m.epdata, m.rules);
  }

  lemma ManyRules(epdata: seq<Json>, rules: seq<Json>)
    ensures ListIn(None) == Some([]) && ListIn(Some(Array(DATA, rules))) == Some(rules)
    ensures |rules| > 1 ==> !Same([], rules)
  {
  }

  /** Several rules are lost; and they come back as endpoint data if the message has none. */
  lemma RulesLost(m: Message, secret: string, name: string)
    requires |m.rules| > 1
    ensures var r := Parse(Node(name, Payload(m, secret)));
      r.Ok? ==> r.value.rules == [] && (m.epdata == [] ==> r.value.epdata == m.rules)
  {
    hide Find, Payload, Listed, Flagged, Decimal, AsInt, ListIn, FieldsIn, First;
    FindAll(m, secret);
    ManyRules(m.epdata, m.rules);
  }

  // ---------------------------------------------------------------------------
  // The builders of the linker
  // ---------------------------------------------------------------------------

  /** One more node under a title: the first is put in as it is, the second makes it an array at the end of the
      payload, any further one is appended to the array. */
  function Added(c: seq<Json>, title: string, item: Json): seq<Json> {
    var n := Position(c, title);
    if n == |c| then c + [Named(item, title)]
    else match c[n]
      case Node(_, _) => c[..n] + c[n + 1..] + [Array(title, [c[n], item])]
      case Array(name, children) => c[n := Array(name, children + [item])]
      case _ => c
  }

  function AddedAll(c: seq<Json>, title: string, items: seq<Json>): seq<Json>
    decreases |items|
  {
    if items == [] then c else AddedAll(Added(c, title, items[0]), title, items[1..])
  }

  /** What the builders have made of a list. */
  function Built(title: string, list: seq<Json>): Option<Json> {
    if list == [] then None
    else if |list| == 1 then Some(Named(list[0], title))
    else Some(Array(title, [Named(list[0], title)] + list[1..]))
  }

  /** At most one child has this name. */
  predicate Unique(c: seq<Json>, title: string) {
    forall i, j :: 0 <= i < j < |c| && c[i].name == title ==> c[j].name != title
  }

  lemma PositionIs(c: seq<Json>, name: string, n: nat)
    requires n <= |c| && (forall i :: 0 <= i < n ==> c[i].name != name) && (n < |c| ==> c[n].name == name)
    ensures Position(c, name) == n
  {
    hide Position;
    var m := Position(c, name);
    assert m < |c| ==> c[m].name == name;
  }

  lemma NamedNode(j: Json, name: string)
    requires j.Node?
    ensures Named(j, name) == Node(name, j.children)
  {
  }

  lemma AddedFirst(c: seq<Json>, title: string, item: Json)
    requires Unique(c, title) && Find(c, title) == None
    ensures Unique(Added(c, title, item), title) && Find(Added(c, title, item), title) == Built(title, [item])
  {
    hide Position;
    PositionIs(Added(c, title, item), title, |c|);
  }

  lemma AddedSecond(c: seq<Json>, title: string, item: Json, first: Json)
    requires Unique(c, title) && Find(c, title) == Built(title, [first]) && first.Node?
    ensures Unique(Added(c, title, item), title) && Find(Added(c, title, item), title) == Built(title, [first, item])
  {
    hide Position, Named;
    var n, t := Position(c, title), Added(c, title, item);
    NamedNode(first, title);
    assert c[n] == Named(first, title);
    assert t == c[..n] + c[n + 1..] + [Array(title, [c[n], item])];
    assert forall i :: 0 <= i < |c| - 1 ==> t[i].name != title;
    PositionIs(t, title, |c| - 1);
    assert [first, item][1..] == [item];
    assert [Named(first, title)] + [item] == [c[n], item];
  }

  lemma AddedLater(c: seq<Json>, title: string, item: Json, list: seq<Json>)
    requires Unique(c, title) && Find(c, title) == Built(title, list) && |list| > 1
    ensures Unique(Added(c, title, item), title) && Find(Added(c, title, item), title) == Built(title, list + [item])
  {
    hide Position, Named;
    var n, t, longer := Position(c, title), Added(c, title, item), list + [item];
    assert longer[0] == list[0] && longer[1..] == list[1..] + [item];
    assert [Named(list[0], title)] + list[1..] + [item] == [Named(list[0], title)] + longer[1..];
    PositionIs(t, title, n);
  }

  lemma AddedFind(c: seq<Json>, title: string, item: Json, list: seq<Json>)
    requires Unique(c, title) && Find(c, title) == Built(title, list) && forall x :: x in list ==> x.Node?
    ensures Unique(Added(c, title, item), title) && Find(Added(c, title, item), title) == Built(title, list + [item])
  {
    hide Find, Added, Unique;
    if |list| == 0 {
      AddedFirst(c, title, item);
      assert list + [item] == [item];
    } else if |list| == 1 {
      assert list == [list[0]] && list + [item] == [list[0], item];
      AddedSecond(c, title, item, list[0]);
    } else {
      AddedLater(c, title, item, list);
    }
  }

  lemma FindReplaced(a: seq<Json>, x: Json, y: seq<Json>, b: seq<Json>, other: string)
    requires x.name != other && Find(y, other) == None
    ensures Find(a + y + b, other) == Find(a + [x] + b, other)
  {
    hide Find;
    FindAppend(a + y, b, other);
    FindAppend(a, y, other);
    FindAppend(a + [x], b, other);
    FindAppend(a, [x], other);
    SkipOther(x, other);
  }

  /** The builders of one title leave all others alone. */
  lemma AddedOthers(c: seq<Json>, title: string, item: Json, other: string)
    requires other != title
    ensures Find(Added(c, title, item), other) == Find(c, other)
  {
    hide Position, Find;
    var n := Position(c, title);
    if n == |c| {
      FindAppend(c, [Named(item, title)], other);
      SkipOther(Named(item, title), other);
    } else {
      assert c == c[..n] + [c[n]] + c[n + 1..];
      match c[n]
      case Node(_, _) =>
        FindEmpty(other);
        FindReplaced(c[..n], c[n], [], c[n + 1..], other);
        assert c[..n] + [] + c[n + 1..] == c[..n] + c[n + 1..];
        FindAppend(c[..n] + c[n + 1..], [Array(title, [c[n], item])], other);
        SkipOther(Array(title, [c[n], item]), other);
      case Array(name, children) =>
        var longer := Array(name, children + [item]);
        SkipOther(longer, other);
        FindReplaced(c[..n], c[n], [longer], c[n + 1..], other);
        assert c[n := longer] == c[..n] + [longer] + c[n + 1..];
      case _ =>
    }
  }

  lemma FindEmpty(other: string)
    ensures Find([], other) == None
  {
  }

  lemma SkipOther(j: Json, other: string)
    requires j.name != other
    ensures Find([j], other) == None
  {
  }

  lemma {:induction false} AddedAllFind(c: seq<Json>, title: string, items: seq<Json>, list: seq<Json>, other: string)
    requires Unique(c, title) && Find(c, title) == Built(title, list) && forall x :: x in list + items ==> x.Node?
    ensures Find(AddedAll(c, title, items), title) == Built(title, list + items)
    ensures other != title ==> Find(AddedAll(c, title, items), other) == Find(c, other)
    decreases |items|
  {
    hide Find, Added, Built, Unique;
    if items == [] {
      assert list + items == list;
    } else {
      AddedFind(c, title, items[0], list);
      if other != title {
        AddedOthers(c, title, items[0], other);
      }
      assert list + [items[0]] + items[1..] == list + items;
      AddedAllFind(Added(c, title, items[0]), title, items[1..], list + [items[0]], other);
    }
  }

  lemma FindNone(c: seq<Json>, title: string)
    requires forall x :: x in c ==> x.name != title
    ensures Find(c, title) == None && Unique(c, title)
  {
  }

  lemma BuiltSame(title: string, list: seq<Json>)
    requires forall x :: x in list ==> x.Node?
    ensures ListIn(Built(title, list)).Some? && Same(ListIn(Built(title, list)).value, list)
  {
  }

  /** As many calls of a builder as there are nodes encode the same list as printing it at once: both parse back to
      it. */
  lemma BuildersEncode(c: seq<Json>, title: string, items: seq<Json>)
    requires (forall x :: x in items ==> x.Node?) && forall x :: x in c ==> x.name != title
    ensures var built := ListIn(Find(AddedAll(c, title, items), title));
      && built.Some? && Same(built.value, items)
      && Back(title, items).Some? && Same(built.value, Back(title, items).value)
  {
    hide AddedAll, Find, Listed, Unique;
    FindNone(c, title);
    assert [] + items == items;
    AddedAllFind(c, title, items, [], title);
    BackIff(title, items);
    BuiltSame(title, items);
  }

  // ---------------------------------------------------------------------------
  // The imperative code
  // ---------------------------------------------------------------------------

  const ID := "id"

  /** A payload under construction, as the linker fills it. */
  class PayloadBuilder {
    var children: seq<Json>

    /** Adds an object with its properties, under the title of its kind. */
    method Add(title: string, properties: Json)
      modifies this
      ensures children == Added(old(children), title, properties)
    {
      var n := Position(children, title);
      if n != |children| {
        var it := children[n];
        if it.Node? {
          var list := Array(title, []);
          list := Array(list.name, list.children + [it]);
          list := Array(list.name, list.children + [properties]);
          assert list.children == [it, properties];
          children := children[..n] + children[n + 1..];
          children := children + [list];
        } else if it.Array? {
          children := children[n := Array(it.name, it.children + [properties])];
        }
      } else {
        children := children + [Named(properties, title)];
      }
    }

    /** Adds an object by its id. */
    method AddId(title: string, id: string)
      modifies this
      ensures children == Added(old(children), title, Node("", [Text("id", id)]))
    {
      Add(title, Node("", [Text(ID, id)]));
    }
  }

  class RcsMessage {
    var msgId: string
    var msgType: string
    var time: nat
    var reqId: string
    var gatewayFields: nat
    var deviceFields: nat
    var endpointFields: nat
    var gatewayList: seq<Json>
    var deviceList: seq<Json>
    var endpointList: seq<Json>
    var epdataList: seq<Json>
    var ruleList: seq<Json>
    var payload: seq<Json>

    function Contents(): Message
      reads this
    {
      Message(msgId, msgType, time, reqId, gatewayFields, deviceFields, endpointFields,
              gatewayList, deviceList, endpointList, epdataList, ruleList)
    }

    /** A message that has not been printed yet. */
    constructor (m: Message)
      ensures Contents() == m && payload == []
    {
      msgId, msgType, time, reqId := m.msgId, m.msgType, m.time, m.reqId;
      gatewayFields, deviceFields, endpointFields := m.gatewayFields, m.deviceFields, m.endpointFields;
      gatewayList, deviceList, endpointList := m.gateways, m.devices, m.endpoints;
      epdataList, ruleList, payload := m.epdata, m.rules, [];
    }

    /** Prints a list; the title of a list of several items is given separately. */
    method PushList(single: string, several: string, list: seq<Json>)
      modifies `payload
      ensures payload == old(payload) + if |list| > 1 then Listed(several, list) else Listed(single, list)
    {
      if |list| == 1 {
        payload := payload + [Named(list[0], single)];
      } else if |list| > 1 {
        var items: seq<Json> := [];
        for i := 0 to |list|
          invariant items == list[..i]
        {
          items := items + [list[i]];
        }
        assert items == list;
        payload := payload + [Array(several, items)];
      } else {
        assert payload + [] == payload;
      }
    }

    method PushFields(title: string, fields: nat)
      modifies `payload
      ensures payload == old(payload) + Flagged(title, fields)
    {
      if fields != 0 {
        payload := payload + [Number(title, fields)];
      }
    }

    /** Prints the message, unless it has been printed before. The secret code is a digest of key and message id. */
    method Make(secretCode: string)
      modifies `payload
      ensures payload == if old(payload) == [] then Payload(Contents(), secretCode) else old(payload)
    {
      if |payload| == 0 {
        PushHeader(secretCode);
        PushObjects(secretCode);
        PushLists(secretCode);
      }
    }

    method PushObjects(secretCode: string)
      requires payload == Slots(Contents(), secretCode, 5)
      modifies `payload
      ensures payload == Slots(Contents(), secretCode, 9)
    {
      hide Slots, Listed, Flagged, Decimal;
      ghost var m := Contents();
      SlotsNext(m, secretCode, 5);
      PushFields(GATEWAY_FIELDS, gatewayFields);
      SlotsNext(m, secretCode, 6);
      PushList(GATEWAY, GATEWAY, gatewayList);
      SlotsNext(m, secretCode, 7);
      PushFields(DEVICE_FIELDS, deviceFields);
      SlotsNext(m, secretCode, 8);
      PushList(DEVICE, DEVICE, deviceList);
    }

    method PushLists(secretCode: string)
      requires payload == Slots(Contents(), secretCode, 9)
      modifies `payload
      ensures payload == Slots(Contents(), secretCode, 13)
    {
      hide Slots, Listed, Flagged, Decimal;
      ghost var m := Contents();
      SlotsNext(m, secretCode, 9);
      PushFields(ENDPOINT_FIELDS, endpointFields);
      SlotsNext(m, secretCode, 10);
      PushList(ENDPOINT, ENDPOINT, endpointList);
      SlotsNext(m, secretCode, 11);
      PushList(DATA, DATA, epdataList);
      SlotsNext(m, secretCode, 12);
      PushList(RULE, DATA, ruleList);
    }

    method PushHeader(secretCode: string)
      requires payload == []
      modifies `payload
      ensures payload == Slots(Contents(), secretCode, 5)
    {
      hide Slots, Listed, Flagged, Decimal;
      payload := payload + [Text(MSG_ID, msgId)];
      payload := payload + [Text(MSG_TYPE, msgType)];
      payload := payload + [Text(SECRET, secretCode)];
      payload := payload + [Text(TIME, Decimal(time))];
      SlotsFour(Contents(), secretCode);
      SlotsNext(Contents(), secretCode, 4);
      if |reqId| != 0 {
        payload := payload + [Text(REQ_ID, reqId)];
      } else {
        assert payload + [] == payload;
      }
    }
  }

  lemma PayloadIs(m: Message, secret: string)
    ensures Payload(m, secret)
         == Slot(m, secret, 0) + Slot(m, secret, 1) + Slot(m, secret, 2) + Slot(m, secret, 3) + Slot(m, secret, 4)
            + Slot(m, secret, 5) + Slot(m, secret, 6) + Slot(m, secret, 7) + Slot(m, secret, 8)
            + Slot(m, secret, 9) + Slot(m, secret, 10) + Slot(m, secret, 11) + Slot(m, secret, 12)
  {
    hide Slot, Slots;
    SlotsFour(m, secret);
    SlotsNext(m, secret, 4);
    SlotsNext(m, secret, 5);
    SlotsNext(m, secret, 6);
    SlotsNext(m, secret, 7);
    SlotsNext(m, secret, 8);
    SlotsNext(m, secret, 9);
    SlotsNext(m, secret, 10);
    SlotsNext(m, secret, 11);
    SlotsNext(m, secret, 12);
    FirstSlots(m, secret);
  }

  lemma FirstSlots(m: Message, secret: string)
    ensures Slot(m, secret, 0) + Slot(m, secret, 1) + Slot(m, secret, 2) + Slot(m, secret, 3)
         == [Text(MSG_ID, m.msgId), Text(MSG_TYPE, m.msgType), Text(SECRET, secret), Text(TIME, Decimal(m.time))]
  {
  }

  /** A message with every kind of item. */
  function Example(a: seq<Json>, b: seq<Json>): Message {
    Message("7", "add", 42, "3", 1, 2, 4, [Node("", a)], [Node("", a), Node("", b)], [Node("", b)],
            [Node("", a), Node("", b)], [Node("", a)])
  }

  lemma ExampleHead(a: seq<Json>, b: seq<Json>)
    ensures var m := Example(a, b);
      && Slot(m, "x", 0) == [Text("msg_id", "7")] && Slot(m, "x", 1) == [Text("msg_type", "add")]
      && Slot(m, "x", 2) == [Text("secret_code", "x")] && Slot(m, "x", 3) == [Text("time", "42")]
      && Slot(m, "x", 4) == [Text("req_id", "3")] && Slot(m, "x", 5) == [Number("gateway_fields", 1)]
  {
    hide Decimal;
    DecimalOf42();
  }

  lemma ExampleLists(a: seq<Json>, b: seq<Json>)
    ensures var m := Example(a, b);
      && Slot(m, "x", 6) == [Node("gateway", a)] && Slot(m, "x", 7) == [Number("device_fields", 2)]
      && Slot(m, "x", 8) == [Array("device", [Node("", a), Node("", b)])]
      && Slot(m, "x", 9) == [Number("endpoint_fields", 4)] && Slot(m, "x", 10) == [Node("endpoint", b)]
      && Slot(m, "x", 11) == [Array("data", [Node("", a), Node("", b)])] && Slot(m, "x", 12) == [Node("rule", a)]
  {
    hide Decimal;
  }

  /** The example as it goes over the link. */
  lemma PayloadExample(a: seq<Json>, b: seq<Json>)
    ensures Payload(Example(a, b), "x")
         == [Text("msg_id", "7"), Text("msg_type", "add"), Text("secret_code", "x"), Text("time", "42"),
             Text("req_id", "3"), Number("gateway_fields", 1), Node("gateway", a),
             Number("device_fields", 2), Array("device", [Node("", a), Node("", b)]),
             Number("endpoint_fields", 4), Node("endpoint", b),
             Array("data", [Node("", a), Node("", b)]), Node("rule", a)]
  {
    hide Slot, Payload, Example;
    PayloadIs(Example(a, b), "x");
    ExampleHead(a, b);
    ExampleLists(a, b);
  }

  lemma DecimalOf42()
    ensures Decimal(42) == "42"
  {
    assert Decimal(4) == "4";
  }

  lemma SlotsFour(m: Message, secret: string)
    ensures Slots(m, secret, 4)
         == [Text(MSG_ID, m.msgId), Text(MSG_TYPE, m.msgType), Text(SECRET, secret), Text(TIME, Decimal(m.time))]
  {
    SlotsNext(m, secret, 0);
    SlotsNext(m, secret, 1);
    SlotsNext(m, secret, 2);
    SlotsNext(m, secret, 3);
  }

  /** The list under a title. */
  method ParseList(c: seq<Json>, title: string) returns (list: Option<seq<Json>>)
    ensures list == ListIn(Find(c, title))
  {
    var it := Find(c, title);
    var items: seq<Json> := [];
    if it.Some? {
      if it.value.Node? {
        items := items + [it.value];
        assert items == [it.value];
      } else if it.value.Array? {
        for i := 0 to |it.value.children|
          invariant items == it.value.children[..i]
        {
          items := items + [it.value.children[i]];
        }
        assert items == it.value.children;
      } else {
        return None;
      }
    }
    return Some(items);
  }

  /** The parsing constructor: the message, or the argument of the exception. */
  method ParseMessage(payload: Json, secretCode: string) returns (r: Result<RcsMessage>)
    ensures match Parse(payload)
      case InvalidArgument(message) => r == InvalidArgument(message)
      case Ok(m) => r.Ok? && fresh(r.value) && r.value.Contents() == m && r.value.payload == Payload(m, secretCode)
  {
    hide Find, ListIn, Payload;
    var c := if payload.Node? then payload.children else [];
    var msgId, msgType, time := TextIn(Find(c, MSG_ID)), TextIn(Find(c, MSG_TYPE)), TimeIn(Find(c, TIME));
    if msgId.None? { return InvalidArgument("RCS message id is invalid!"); }
    if msgType.None? { return InvalidArgument("RCS message type is invalid!"); }
    if time.None? { return InvalidArgument("RCS message time is invalid!"); }
    var reqId := TextIn(Find(c, REQ_ID));
    var gateways := ParseList(c, GATEWAY);
    if gateways.None? { return InvalidArgument("RCS message gateway is invalid!"); }
    var gatewayFields := FieldsIn(Find(c, GATEWAY_FIELDS));
    var devices := ParseList(c, DEVICE);
    if devices.None? { return InvalidArgument("RCS message device is invalid!"); }
    var deviceFields := FieldsIn(Find(c, DEVICE_FIELDS));
    var endpoints := ParseList(c, ENDPOINT);
    if endpoints.None? { return InvalidArgument("RCS message endpoint is invalid!"); }
    var endpointFields := FieldsIn(Find(c, ENDPOINT_FIELDS));
    var epdata := ParseList(c, DATA);
    if epdata.None? { return InvalidArgument("RCS message endpoint is invalid!"); }
    var rules := ParseList(c, RULE);
    if rules.None? { return InvalidArgument("RCS message endpoint is invalid!"); }
    var message := new RcsMessage(Message(msgId.value, msgType.value, time.value,
                                          if reqId.Some? then reqId.value else "",
                                          gatewayFields, deviceFields, endpointFields, gateways.value, devices.value,
                                          endpoints.value, epdata.value, rules.value));
    message.Make(secretCode);
    return Ok(message);
  }
}
