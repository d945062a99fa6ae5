/**
  The table of request headers: three parallel arrays that start small and grow, filled with
  the fixed headers of a call and with whatever metadata the application supplies.
 */
module RequestHeaders {
  import opened Bytes
  import opened Timeout

  const INLINE_CAPACITY := 16
  const MAX_VALUES := 256
  const FIXED_HEADERS := 8
  const MAX_CAPACITY := 264

  datatype Header = Header(name: string, value: string)

  // ------------------------------------------------------------ what may be sent

  predicate NameChar(c: char) {
    'a' <= c <= 'z' || '0' <= c <= '9' || c == '_' || c == '.' || c == '-'
  }

  const RESERVED: set<string> := {
    "content-type", "te", "grpc-accept-encoding", "grpc-encoding", "grpc-message", "grpc-status",
    "grpc-status-details-bin", "host", "connection", "keep-alive", "proxy-connection",
    "transfer-encoding", "upgrade"}

  const GRPC_PREFIX := "grpc-"
  const USER_AGENT := "user-agent"

  /** A key without a name is one of a list. */
  predicate Forbidden(key: Option<string>) {
    || key.None? || key.value == ""
    || (exists i :: 0 <= i < |key.value| && !NameChar(key.value[i]))
    || key.value in RESERVED
    || (|key.value| > |GRPC_PREFIX| && GRPC_PREFIX <= key.value)
  }

  predicate Binary(key: string) {
    |key| >= 4 && key[|key| - 4..] == "-bin"
  }

  predicate Base64Char(c: char) {
    'A' <= c <= 'Z' || 'a' <= c <= 'z' || '0' <= c <= '9' || c == '+' || c == '/' || c == '='
  }

  predicate Sendable(key: string, wire: string) {
    forall i :: 0 <= i < |wire| ==>
      if Binary(key) then Base64Char(wire[i]) else 0x20 <= wire[i] as int < 0x7f
  }

  // -------------------------------------------------------------- the metadata

  datatype Item = Text(text: string) | NotText

  datatype Value = One(item: Item) | Several(items: seq<Item>)

  datatype Entry = Entry(key: Option<string>, value: Value)

  datatype Problem = ForbiddenKey | NotAString | TooMany | InvalidValue

  /** What one step of the walk over the metadata meets. */
  datatype Token = BadKey | Field(key: string, item: Item)

  function ItemsOf(v: Value): seq<Item> {
    match v
    case One(item) => [item]
    case Several(items) => items
  }

  function Fields(key: string, items: seq<Item>): (ts: seq<Token>)
    ensures |ts| == |items|
  {
    seq(|items|, i requires 0 <= i < |items| => Field(key, items[i]))
  }

  function TokensOf(e: Entry): seq<Token> {
    if e.key == Some(USER_AGENT) then []
    else if Forbidden(e.key) then [BadKey]
    else Fields(e.key.value, ItemsOf(e.value))
  }

  function Tokens(md: seq<Entry>): seq<Token> {
    if md == [] then [] else Tokens(md[..|md| - 1]) + TokensOf(md[|md| - 1])
  }

  lemma {:induction false} TokensCut(md: seq<Entry>, k: nat)
    requires k <= |md|
    ensures |Tokens(md[..k])| <= |Tokens(md)| && Tokens(md) == Tokens(md[..k]) + Tokens(md)[|Tokens(md[..k])|..]
    decreases |md|
  {
    if k == |md| {
      assert md[..k] == md;
    } else {
      var init := md[..|md| - 1];
      assert init[..k] == md[..k];
      TokensCut(init, k);
    }
  }

  /** Every item of every key that may be sent has its own place in the walk, in order, behind
      all items of the entries before; other entries take none, or one if the key is forbidden. */
  lemma {:induction false} ItemAt(md: seq<Entry>, k: nat, i: nat)
    requires k < |md| && md[k].key.Some? && md[k].key.value != USER_AGENT && !Forbidden(md[k].key)
    requires if md[k].value.One? then i == 0 else i < |md[k].value.items|
    ensures var at := |Tokens(md[..k])| + i;
            && at < |Tokens(md)|
            && Tokens(md)[at] == Field(md[k].key.value, if md[k].value.One? then md[k].value.item else md[k].value.items[i])
  {
    OwnItemAt(md[k], i);
    assert md[..k + 1][..k] == md[..k];
    assert Tokens(md[..k + 1]) == Tokens(md[..k]) + TokensOf(md[k]);
    TokensCut(md, k + 1);
  }

  lemma OwnItemAt(e: Entry, i: nat)
    requires e.key.Some? && e.key.value != USER_AGENT && !Forbidden(e.key)
    requires if e.value.One? then i == 0 else i < |e.value.items|
    ensures i < |TokensOf(e)|
    ensures TokensOf(e)[i] == Field(e.key.value, if e.value.One? then e.value.item else e.value.items[i])
  {
  }

  lemma TokensCounted(md: seq<Entry>, k: nat)
    requires k < |md|
    ensures |Tokens(md[..k + 1])| == |Tokens(md[..k])| +
            if md[k].key == Some(USER_AGENT) then 0
            else if Forbidden(md[k].key) || md[k].value.One? then 1 else |md[k].value.items|
  {
    assert md[..k + 1][..k] == md[..k];
  }

  /** The value as it goes on the wire; `encode` is base64 without padding. */
  function Wire(encode: string -> string, key: string, text: string): string {
    if Binary(key) then encode(text) else text
  }

  /** What is wrong with a token that would become custom value number `i`. */
  function ProblemOf(encode: string -> string, t: Token, i: nat): Option<Problem> {
    if t.BadKey? then Some(ForbiddenKey)
    else if t.item.NotText? then Some(NotAString)
    else if i >= MAX_VALUES then Some(TooMany)
    else if !Sendable(t.key, Wire(encode, t.key, t.item.text)) then Some(InvalidValue)
    else None
  }

  ghost predicate Fine(encode: string -> string, ts: seq<Token>) {
    forall i :: 0 <= i < |ts| ==> ProblemOf(encode, ts[i], i) == None
  }

  /** The headers of tokens that are all fine, one for each and in their order. */
  function CustomHeaders(encode: string -> string, ts: seq<Token>): (hs: seq<Header>)
    requires forall i :: 0 <= i < |ts| ==> ts[i].Field? && ts[i].item.Text?
    ensures |hs| == |ts|
  {
    seq(|ts|, i requires 0 <= i < |ts| => Header(ts[i].key, Wire(encode, ts[i].key, ts[i].item.text)))
  }

  /** The walk stops at the first token that is not fine. */
  ghost predicate StopsWith(encode: string -> string, ts: seq<Token>, p: Problem) {
    exists i :: 0 <= i < |ts| && Fine(encode, ts[..i]) && ProblemOf(encode, ts[i], i) == Some(p)
  }

  lemma StopIsFinal(encode: string -> string, ts: seq<Token>, more: seq<Token>, p: Problem)
    requires StopsWith(encode, ts, p)
    ensures StopsWith(encode, ts + more, p) && !Fine(encode, ts + more)
  {
    var i :| 0 <= i < |ts| && Fine(encode, ts[..i]) && ProblemOf(encode, ts[i], i) == Some(p);
    assert (ts + more)[..i] == ts[..i] && (ts + more)[i] == ts[i];
  }

  lemma StopHere(encode: string -> string, ts: seq<Token>, t: Token, more: seq<Token>, p: Problem)
    requires Fine(encode, ts) && ProblemOf(encode, t, |ts|) == Some(p)
    ensures StopsWith(encode, ts + [t] + more, p) && !Fine(encode, ts + [t] + more)
  {
    var all := ts + [t];
    assert all[..|ts|] == ts && all[|ts|] == t;
    StopIsFinal(encode, all, more, p);
  }

  lemma WalkedOn(ts: seq<Token>, all: seq<Token>, i: nat)
    requires i < |all|
    ensures ts + all[..i] + [all[i]] == ts + all[..i + 1]
    ensures ts + all[..i] + [all[i]] + all[i + 1..] == ts + all
  {
  }

  lemma OneMore(encode: string -> string, ts: seq<Token>, key: string, text: string)
    requires Fine(encode, ts) && ProblemOf(encode, Field(key, Text(text)), |ts|) == None
    ensures var all, h := ts + [Field(key, Text(text))], Header(key, Wire(encode, key, text));
            && Fine(encode, all) && CustomHeaders(encode, all) == CustomHeaders(encode, ts) + [h]
            && NamesOf(CustomHeaders(encode, all)) == NamesOf(CustomHeaders(encode, ts)) + [key]
            && ValuesOf(CustomHeaders(encode, all)) == ValuesOf(CustomHeaders(encode, ts)) + [h.value]
  {
  }

  function NamesOf(hs: seq<Header>): seq<string> {
    seq(|hs|, i requires 0 <= i < |hs| => hs[i].name)
  }

  function ValuesOf(hs: seq<Header>): seq<string> {
    seq(|hs|, i requires 0 <= i < |hs| => hs[i].value)
  }

  // -------------------------------------------------------------------- the table

  /** A copy of the used part of an array in a longer one. */
  method Enlarged<T>(a: array<T>, used: nat, capacity: nat, blank: T) returns (b: array<T>)
    requires used <= a.Length && used <= capacity
    ensures fresh(b) && b.Length == capacity && b[..used] == a[..used]
  {
    b := new T[capacity](_ => blank);
    for i := 0 to used
      invariant b[..i] == a[..i]
    {
      b[i] := a[i];
    }
  }

  class Table {
    var nva: array<Header>
    var names: array<string>
    var values: array<string>
    var len: nat
    var nameCount: nat
    var valueCount: nat
    var customCount: nat
    var capacity: nat

    constructor ()
      ensures Valid() && fresh(nva) && fresh(names) && fresh(values)
      ensures Headers() == [] && Names() == [] && Owned() == [] && customCount == 0
    {
      capacity, len, nameCount, valueCount, customCount := INLINE_CAPACITY, 0, 0, 0, 0;
      nva := new Header[INLINE_CAPACITY](_ => Header("", ""));
      names := new string[INLINE_CAPACITY](_ => "");
      values := new string[INLINE_CAPACITY](_ => "");
    }

    /** Every array is the one it was or a new one. */
    twostate predicate Moved()
      reads this
    {
      && (nva == old(nva) || fresh(nva))
      && (names == old(names) || fresh(names))
      && (values == old(values) || fresh(values))
    }

    ghost predicate Valid()
      reads this, nva, names, values
    {
      && names != values
      && INLINE_CAPACITY <= capacity <= MAX_CAPACITY
      && nva.Length == capacity && names.Length == capacity && values.Length == capacity
      && len <= capacity && nameCount <= capacity && valueCount <= capacity
      && customCount <= MAX_VALUES
    }

    ghost function Headers(): seq<Header>
      requires Valid()
      reads this, nva, names, values
    {
      nva[..len]
    }

    ghost function Names(): seq<string>
      requires Valid()
      reads this, nva, names, values
    {
      names[..nameCount]
    }

    ghost function Owned(): seq<string>
      requires Valid()
      reads this, nva, names, values
    {
      values[..valueCount]
    }

    method Grow()
      requires Valid()
      modifies this
      ensures Valid() && capacity == Min(2 * old(capacity), MAX_CAPACITY)
      ensures Headers() == old(Headers()) && Names() == old(Names()) && Owned() == old(Owned())
      ensures len == old(len) && nameCount == old(nameCount) && valueCount == old(valueCount)
      ensures customCount == old(customCount)
      ensures Moved()
    {
      var newCapacity := capacity * 2;
      if newCapacity < capacity || newCapacity > MAX_CAPACITY {
        newCapacity := MAX_CAPACITY;
      }
      if newCapacity <= capacity {
        return;
      }
      var newNva := Enlarged(nva, len, newCapacity, Header("", ""));
      var newNames := Enlarged(names, nameCount, newCapacity, "");
      var newValues := Enlarged(values, valueCount, newCapacity, "");
      nva, names, values, capacity := newNva, newNames, newValues, newCapacity;
    }

    method AppendUnchecked(h: Header)
      requires Valid() && len < capacity
      modifies this`len, nva
      ensures Valid() && len == old(len) + 1 && Headers() == old(Headers()) + [h]
      ensures Names() == old(Names()) && Owned() == old(Owned())
    {
      nva[len] := h;
      len := len + 1;
    }

    /** Adds a header, or drops it without a word if the largest table is full. */
    method Append(h: Header)
      requires Valid()
      modifies this, nva
      ensures Valid() && Moved() && customCount == old(customCount)
      ensures Headers() == (if old(len) < MAX_CAPACITY then old(Headers()) + [h] else old(Headers()))
      ensures Names() == old(Names()) && Owned() == old(Owned())
      ensures nameCount == old(nameCount) && valueCount == old(valueCount)
    {
      if len >= capacity {
        Grow();
        if len >= capacity {
          return;
        }
      }
      AppendUnchecked(h);
    }

    /** Adds the timeout, if there is one; its text is kept among the owned strings. */
    method AppendTimeout(timeout: int)
      requires Valid()
      modifies this, nva, values
      ensures Valid() && Moved() && customCount == old(customCount)
      ensures var s := Render(timeout, 32);
              old(valueCount < capacity && len < MAX_CAPACITY) ==>
                && Headers() == old(Headers()) + (if s == "" then [] else [Header("grpc-timeout", s)])
                && Owned() == old(Owned()) + (if s == "" then [] else [s])
      ensures Names() == old(Names())
    {
      var s := Render(timeout, 32);
      if |s| == 0 {
        return;
      }
      if valueCount < capacity {
        values[valueCount] := s;
        valueCount := valueCount + 1;
      } else {
        return;
      }
      Append(Header("grpc-timeout", s));
    }

    /** Grows if an array is full, and says whether every array then has a free slot. */
    method MakeRoom() returns (room: bool)
      requires Valid()
      modifies this
      ensures Valid() && Moved() && customCount == old(customCount)
      ensures Headers() == old(Headers()) && Names() == old(Names()) && Owned() == old(Owned())
      ensures room == (len < capacity && nameCount < capacity && valueCount < capacity)
      ensures room <== old(len < MAX_CAPACITY && nameCount < MAX_CAPACITY && valueCount < MAX_CAPACITY)
    {
      if len >= capacity || nameCount >= capacity || valueCount >= capacity {
        Grow();
      }
      return !(len >= capacity || nameCount >= capacity || valueCount >= capacity);
    }

    method Store(key: string, wire: string)
      requires Valid() && len < capacity && nameCount < capacity && valueCount < capacity && customCount < MAX_VALUES
      modifies this`len, this`nameCount, this`valueCount, this`customCount, nva, names, values
      ensures Valid() && customCount == old(customCount) + 1
      ensures Headers() == old(Headers()) + [Header(key, wire)]
      ensures Names() == old(Names()) + [key] && Owned() == old(Owned()) + [wire]
    {
      names[nameCount] := key;
      nameCount := nameCount + 1;
      values[valueCount] := wire;
      valueCount := valueCount + 1;
      AppendUnchecked(Header(key, wire));
      customCount := customCount + 1;
    }

    /** Adds one value of a custom key, or says what is wrong with it. */
    method AppendCustomValue(encode: string -> string, key: string, item: Item) returns (problem: Option<Problem>)
      requires Valid()
      modifies this, nva, names, values
      ensures Valid() && Moved()
      ensures old(Roomy()) ==> Roomy() && problem == ProblemOf(encode, Field(key, item), old(customCount))
      ensures problem == None ==>
                && item.Text? && customCount == old(customCount) + 1
                && Headers() == old(Headers()) + [Header(key, Wire(encode, key, item.text))]
                && Names() == old(Names()) + [key]
                && Owned() == old(Owned()) + [Wire(encode, key, item.text)]
    {
      if item.NotText? {
        return Some(NotAString);
      }
      if customCount >= MAX_VALUES {
        return Some(TooMany);
      }
      var room := MakeRoom();
      if !room {
        return Some(TooMany);
      }
      var wire := Wire(encode, key, item.text);
      if !Sendable(key, wire) {
        return Some(InvalidValue);
      }
      Store(key, wire);
      return None;
    }

    /** The table holds `fixed` and `owned` and then what the tokens `ts` stand for. */
    ghost predicate Holding(encode: string -> string, fixed: seq<Header>, owned: seq<string>, ts: seq<Token>)
      reads this, nva, names, values
    {
      && Valid() && Roomy() && Fine(encode, ts) && customCount == |ts|
      && Headers() == fixed + CustomHeaders(encode, ts)
      && Names() == NamesOf(CustomHeaders(encode, ts))
      && Owned() == owned + ValuesOf(CustomHeaders(encode, ts))
    }

    method AppendItem(
      encode: string -> string, key: string, item: Item,
      ghost fixed: seq<Header>, ghost owned: seq<string>, ghost ts: seq<Token>) returns (problem: Option<Problem>)
      requires Holding(encode, fixed, owned, ts)
      modifies this, nva, names, values
      ensures Valid() && Moved()
      ensures problem == ProblemOf(encode, Field(key, item), |ts|)
      ensures problem.None? ==> Holding(encode, fixed, owned, ts + [Field(key, item)])
    {
      problem := AppendCustomValue(encode, key, item);
      if problem.None? {
        OneMore(encode, ts, key, item.text);
      }
    }

    method AppendValues(
      encode: string -> string, key: string, items: seq<Item>,
      ghost fixed: seq<Header>, ghost owned: seq<string>, ghost ts: seq<Token>) returns (problem: Option<Problem>)
      requires Holding(encode, fixed, owned, ts)
      modifies this, nva, names, values
      ensures Valid() && Moved()
      ensures problem.None? ==> Holding(encode, fixed, owned, ts + Fields(key, items))
      ensures problem.Some? ==> StopsWith(encode, ts + Fields(key, items), problem.value)
    {
      ghost var all := Fields(key, items);
      assert ts + all[..0] == ts;
      for i := 0 to |items|
        invariant Moved() && Holding(encode, fixed, owned, ts + all[..i])
      {
        problem := AppendItem(encode, key, items[i], fixed, owned, ts + all[..i]);
        WalkedOn(ts, all, i);
        if problem.Some? {
          StopHere(encode, ts + all[..i], all[i], all[i + 1..], problem.value);
          return;
        }
      }
      assert all[..|items|] == all;
      return None;
    }

    /** Adds all custom metadata: every accepted value once and in order, nothing for a
        user-agent key, or the first thing that is wrong. */
    method AppendCustom(encode: string -> string, md: seq<Entry>) returns (problem: Option<Problem>)
      requires Valid() && Roomy() && customCount == 0
      modifies this, nva, names, values
      ensures Valid() && Moved()
      ensures problem.None? <==> Fine(encode, Tokens(md))
      ensures problem.None? ==> Holding(encode, old(Headers()), old(Owned()), Tokens(md))
      ensures problem.Some? ==> StopsWith(encode, Tokens(md), problem.value)
    {
      ghost var fixed, owned := Headers(), Owned();
      for i := 0 to |md|
        invariant Moved() && Holding(encode, fixed, owned, Tokens(md[..i]))
      {
        ghost var done := Tokens(md[..i]);
        assert md[..i + 1][..i] == md[..i];
        assert Tokens(md[..i + 1]) == done + TokensOf(md[i]);
        if md[i].key == Some(USER_AGENT) {
          continue;
        }
        if Forbidden(md[i].key) {
          assert done + [BadKey] == done + [BadKey] + [];
          StopHere(encode, done, BadKey, [], ForbiddenKey);
          TokensCut(md, i + 1);
          StopIsFinal(encode, Tokens(md[..i + 1]), Tokens(md)[|Tokens(md[..i + 1])|..], ForbiddenKey);
          return Some(ForbiddenKey);
        }
        problem := AppendValues(encode, md[i].key.value, ItemsOf(md[i].value), fixed, owned, done);
        if problem.Some? {
          TokensCut(md, i + 1);
          StopIsFinal(encode, Tokens(md[..i + 1]), Tokens(md)[|Tokens(md[..i + 1])|..], problem.value);
          return;
        }
      }
      assert md[..|md|] == md;
      return None;
    }

    /** The table holds the fixed headers at most besides the custom ones. */
    ghost predicate Roomy()
      reads this
    {
      len <= FIXED_HEADERS + customCount && nameCount <= customCount && valueCount <= customCount + 1
    }
  }

  // ------------------------------------------------------------------ a request

  datatype Request = Request(
    tls: bool, authority: string, path: string, timeout: int, primaryAgent: string, defaultAgent: string)

  /** The headers every request starts with, in their order. */
  function FixedHeaders(q: Request): (hs: seq<Header>)
    ensures |hs| <= FIXED_HEADERS
  {
    PseudoHeaders(q) + [TYPE_HEADER, TE_HEADER] + TimeoutHeader(q) + [AgentHeader(q)]
  }

  function TimeoutHeader(q: Request): (hs: seq<Header>)
    ensures |hs| <= 1
  {
    if Render(q.timeout, 32) == "" then [] else [Header("grpc-timeout", Render(q.timeout, 32))]
  }

  function PseudoHeaders(q: Request): seq<Header> {
    [Header(":method", "POST"), Header(":scheme", if q.tls then "https" else "http"),
     Header(":authority", q.authority), Header(":path", q.path)]
  }

  /** A fresh table that holds `hs`, whose owned strings are `owned`, and nothing custom yet. */
  twostate predicate Started(new table: Table, hs: seq<Header>, owned: seq<string>)
    reads table, table.nva, table.names, table.values
  {
    && fresh(table) && fresh(table.nva) && fresh(table.names) && fresh(table.values)
    && table.Valid() && table.customCount == 0 && table.nameCount == 0
    && table.Headers() == hs && table.Owned() == owned
  }

  method StartPair(q: Request) returns (table: Table)
    ensures fresh(table) && Started(table, PseudoHeaders(q)[..2], [])
  {
    table := new Table();
    table.Append(Header(":method", "POST"));
    table.Append(Header(":scheme", if q.tls then "https" else "http"));
  }

  method StartTable(q: Request) returns (table: Table)
    ensures fresh(table) && Started(table, PseudoHeaders(q), [])
  {
    table := StartPair(q);
    table.Append(Header(":authority", q.authority));
    table.Append(Header(":path", q.path));
  }

  method StartTypes(q: Request) returns (table: Table)
    ensures fresh(table) && Started(table, PseudoHeaders(q) + [TYPE_HEADER, TE_HEADER], [])
  {
    table := StartTable(q);
    table.Append(Header("content-type", "application/grpc"));
    table.Append(Header("te", "trailers"));
  }

  method BuildFixed(q: Request) returns (table: Table)
    ensures fresh(table) && Started(table, FixedHeaders(q), ValuesOf(TimeoutHeader(q))) && table.Roomy()
  {
    table := StartTypes(q);
    table.AppendTimeout(q.timeout);
    table.Append(Header(USER_AGENT, if q.primaryAgent != "" then q.primaryAgent else q.defaultAgent));
  }

  /** A request that is built carries every fixed header and every custom value exactly once
      and in order, whatever growing that took; it is refused exactly if some token is not fine. */
  method Build(q: Request, encode: string -> string, md: seq<Entry>) returns (table: Table, problem: Option<Problem>)
    ensures table.Valid() && table.capacity <= MAX_CAPACITY
    ensures problem.None? <==> Fine(encode, Tokens(md))
    ensures problem.None? ==>
              && Fine(encode, Tokens(md))
              && table.Headers() == FixedHeaders(q) + CustomHeaders(encode, Tokens(md))
              && table.Names() == NamesOf(CustomHeaders(encode, Tokens(md)))
              && table.Owned() == ValuesOf(TimeoutHeader(q)) + ValuesOf(CustomHeaders(encode, Tokens(md)))
    ensures problem.Some? ==> StopsWith(encode, Tokens(md), problem.value)
  {
    table := BuildFixed(q);
    problem := table.AppendCustom(encode, md);
  }

  /** Whether a request is refused depends on the number of values only beyond 256. */
  lemma TooManyExactly(encode: string -> string, ts: seq<Token>)
    requires forall i :: 0 <= i < |ts| ==> ProblemOf(encode, ts[i], 0) == None
    ensures Fine(encode, ts) <==> |ts| <= MAX_VALUES
    ensures |ts| > MAX_VALUES ==> StopsWith(encode, ts, TooMany)
  {
    forall i | 0 <= i < |ts|
      ensures ProblemOf(encode, ts[i], i) == if i < MAX_VALUES then None else Some(TooMany)
    {
      assert ProblemOf(encode, ts[i], 0) == None;
    }
    if |ts| > MAX_VALUES {
      assert ProblemOf(encode, ts[MAX_VALUES], MAX_VALUES) == Some(TooMany);
      assert Fine(encode, ts[..MAX_VALUES]);
    }
  }

  const TYPE_HEADER: Header := Header("content-type", "application/grpc")
  const TE_HEADER: Header := Header("te", "trailers")

  function AgentHeader(q: Request): Header {
    Header(USER_AGENT, if q.primaryAgent != "" then q.primaryAgent else q.defaultAgent)
  }

  /** The four pseudo-headers: what a request asks for, and of whom. */
  lemma PseudoAre(q: Request)
    ensures var hs := PseudoHeaders(q);
            && |hs| == 4 && hs[0] == Header(":method", "POST")
            && hs[2] == Header(":authority", q.authority) && hs[3] == Header(":path", q.path)
            && hs[1].name == ":scheme" && (hs[1].value == "https" <==> q.tls) && (hs[1].value == "http" <==> !q.tls)
  {
    assert |"https"| == 5 && |"http"| == 4;
  }

  /** The fixed headers in their places: the pseudo-headers, content type, te, a timeout the peer
      reads back if there is one, and the user agent. */
  lemma FixedAre(q: Request)
    ensures var hs := FixedHeaders(q);
            && |hs| == (if q.timeout > 0 then 8 else 7) && (forall i :: 0 <= i < 4 ==> hs[i] == PseudoHeaders(q)[i])
            && hs[4] == TYPE_HEADER && hs[5] == TE_HEADER && hs[|hs| - 1] == AgentHeader(q)
            && (q.timeout > 0 ==> hs[6].name == "grpc-timeout" && Read(hs[6].value) == Some(Duration(q.timeout)))
  {
    TimeoutIs(q);
    Assembled(PseudoHeaders(q) + [TYPE_HEADER, TE_HEADER], TimeoutHeader(q), AgentHeader(q));
  }

  lemma TimeoutIs(q: Request)
    ensures |TimeoutHeader(q)| == (if q.timeout > 0 then 1 else 0)
    ensures q.timeout > 0 ==>
              var h := TimeoutHeader(q)[0];
              h.name == "grpc-timeout" && Read(h.value) == Some(Duration(q.timeout))
  {
    RenderedExactly(q.timeout, 32);
    if q.timeout > 0 {
      RenderedReads(q.timeout, 32);
    }
  }

  lemma Assembled(front: seq<Header>, middle: seq<Header>, last: Header)
    ensures var hs := front + middle + [last];
            && |hs| == |front| + |middle| + 1 && hs[|hs| - 1] == last
            && (forall i :: 0 <= i < |front| ==> hs[i] == front[i])
            && (forall i :: 0 <= i < |middle| ==> hs[|front| + i] == middle[i])
  {
  }

  /** A key the application may use for its own metadata. */
  predicate CustomKey(key: string) {
    && key != "" && (forall i :: 0 <= i < |key| ==> NameChar(key[i]))
    && key !in RESERVED && !(|key| > |GRPC_PREFIX| && GRPC_PREFIX <= key) && key != USER_AGENT
  }

  lemma {:induction false} TokensAreCustom(md: seq<Entry>)
    ensures forall i :: 0 <= i < |Tokens(md)| && Tokens(md)[i].Field? ==> CustomKey(Tokens(md)[i].key)
  {
    if md != [] {
      TokensAreCustom(md[..|md| - 1]);
      OwnTokensAreCustom(md[|md| - 1]);
    }
  }

  lemma OwnTokensAreCustom(e: Entry)
    ensures forall i :: 0 <= i < |TokensOf(e)| && TokensOf(e)[i].Field? ==> CustomKey(TokensOf(e)[i].key)
  {
  }

  lemma PseudoNames(q: Request, i: nat)
    requires i < 4
    ensures |PseudoHeaders(q)| == 4 && PseudoHeaders(q)[i].name != "" && PseudoHeaders(q)[i].name[0] == ':'
  {
  }

  lemma NotPseudo(key: string)
    requires CustomKey(key)
    ensures key[0] != ':'
  {
    assert NameChar(key[0]);
  }

  lemma NotReserved(key: string)
    requires key !in RESERVED
    ensures key != TYPE_HEADER.name && key != TE_HEADER.name
  {
    assert TYPE_HEADER.name in RESERVED && TE_HEADER.name in RESERVED;
  }

  lemma NotTimeout(key: string)
    requires !(|key| > |GRPC_PREFIX| && GRPC_PREFIX <= key)
    ensures key != "grpc-timeout"
  {
    assert |"grpc-timeout"| == 12 && "grpc-timeout"[..5] == GRPC_PREFIX;
  }

  /** A key for metadata is the name of none of the fixed headers. */
  lemma CustomIsNotFixed(q: Request, key: string, i: nat)
    requires CustomKey(key) && i < |FixedHeaders(q)|
    ensures FixedHeaders(q)[i].name != key
  {
    FixedAre(q);
    if i < 4 {
      PseudoNames(q, i);
      NotPseudo(key);
    } else if i < 6 {
      NotReserved(key);
    } else {
      NotTimeout(key);
    }
  }

  /** Every header made of the metadata carries the key of its token. */
  lemma CustomNames(encode: string -> string, ts: seq<Token>, j: nat)
    requires Fine(encode, ts) && j < |ts|
    ensures ts[j].Field? && CustomHeaders(encode, ts)[j].name == ts[j].key
  {
    assert ProblemOf(encode, ts[j], j) == None;
  }

  /** What the application supplies never repeats or replaces a fixed header, and is never a
      pseudo-header, so those stand only in front (section 8.3 of RFC 9113). */
  lemma CustomKeepsToItself(q: Request, md: seq<Entry>, j: nat, i: nat)
    requires j < |Tokens(md)| && Tokens(md)[j].Field? && i < |FixedHeaders(q)|
    ensures var name := Tokens(md)[j].key;
            name != FixedHeaders(q)[i].name && name != "" && name[0] != ':'
  {
    TokensAreCustom(md);
    CustomIsNotFixed(q, Tokens(md)[j].key, i);
    NotPseudo(Tokens(md)[j].key);
  }
}
