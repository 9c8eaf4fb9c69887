/** The parts of log/slog both handlers rest on: attributes, groups and values that resolve lazily. */
module Slog {
  /**
   A leaf stands for every non-group kind and carries the text syslog prints for it; Nil is the value
   of the zero Attr. A LogValuer resolves to another value when it is rendered.
   */
  datatype Value =
    | Nil(text: string)
    | Leaf(text: string)
    | Group(attrs: seq<Attr>)
    | LogValuer(inner: Value)

  datatype Attr = Attr(key: string, value: Value)

  const MAX_LOG_VALUES: nat := 100

  /** Value.Resolve: follows LogValuers, giving up with an error value after too many. */
  function Resolve(v: Value, budget: nat := MAX_LOG_VALUES): (r: Value)
    ensures r.Group? ==> r == v || r < v
    ensures !r.LogValuer?
  {
    if budget == 0 then Leaf("LogValue called too many times")
    else if v.LogValuer? then Resolve(v.inner, budget - 1)
    else v
  }

  predicate IsEmptyGroup(v: Value) {
    v.Group? && v.attrs == []
  }

  /** Both GroupValue and Record.AddAttrs leave out empty groups. */
  function WithoutEmptyGroups(attrs: seq<Attr>): seq<Attr> {
    if attrs == [] then [] else
      (if IsEmptyGroup(attrs[0].value) then [] else [attrs[0]]) + WithoutEmptyGroups(attrs[1..])
  }

  function GroupValue(attrs: seq<Attr>): Value {
    Group(WithoutEmptyGroups(attrs))
  }
}

/** The syslog handler's formatting (log/slog/syslog/handler.go). */
module Syslog {
  import opened Slog

  datatype Entry = Entry(groups: seq<string>, attr: Attr)

  datatype Handler = Handler(attrs: seq<Entry>, groups: seq<string>)

  const FRESH := Handler([], [])

  function QualifiedKey(groups: seq<string>, key: string): string {
    if groups == [] then key else groups[0] + "." + QualifiedKey(groups[1..], key)
  }

  /** The text appendAttr adds to the buffer. */
  function RenderAttr(groups: seq<string>, attr: Attr): string
    decreases attr, 0
  {
    var value := Resolve(attr.value);
    if attr.key == "" && value.Nil? then ""
    else if value.Group? then
      RenderAttrs(if attr.key != "" then groups + [attr.key] else groups, value.attrs)
    else if attr.key == "" then ""
    else " " + QualifiedKey(groups, attr.key) + "=" + value.text
  }

  function RenderAttrs(groups: seq<string>, attrs: seq<Attr>): string
    decreases attrs, 1
  {
    if attrs == [] then "" else RenderAttr(groups, attrs[0]) + RenderAttrs(groups, attrs[1..])
  }

  function RenderEntries(entries: seq<Entry>): string {
    if entries == [] then "" else
      RenderAttr(entries[0].groups, entries[0].attr) + RenderEntries(entries[1..])
  }

  function Entries(groups: seq<string>, attrs: seq<Attr>): seq<Entry> {
    seq(|attrs|, i requires 0 <= i < |attrs| => Entry(groups, attrs[i]))
  }

  /** WithAttrs: every attribute is stored with the groups open at the time. */
  function Bind(h: Handler, attrs: seq<Attr>): Handler {
    h.(attrs := h.attrs + Entries(h.groups, attrs))
  }

  /** WithGroup. */
  function Open(h: Handler, name: string): Handler {
    if name == "" then h else h.(groups := h.groups + [name])
  }

  /** The line written for a record. */
  function Line(h: Handler, message: string, attrs: seq<Attr>): string {
    message + RenderEntries(h.attrs) + RenderAttrs(h.groups, attrs)
  }

  method WithAttrs(h: Handler, attrs: seq<Attr>) returns (clone: Handler)
    ensures clone == Bind(h, attrs)
  {
    clone := h;
    for i := 0 to |attrs|
      invariant clone == Bind(h, attrs[..i])
    {
      clone := clone.(attrs := clone.attrs + [Entry(h.groups, attrs[i])]);
      assert clone.attrs == h.attrs + Entries(h.groups, attrs[..i + 1]);
    }
    assert attrs[..|attrs|] == attrs;
  }

  method FormatRecord(h: Handler, message: string, attrs: seq<Attr>) returns (buffer: string)
    ensures buffer == Line(h, message, attrs)
  {
    buffer := message;
    for i := 0 to |h.attrs|
      invariant buffer == message + RenderEntries(h.attrs[..i])
    {
      assert h.attrs[..i + 1] == h.attrs[..i] + [h.attrs[i]];
      RenderEntriesConcat(h.attrs[..i], [h.attrs[i]]);
      buffer := buffer + RenderAttr(h.attrs[i].groups, h.attrs[i].attr);
    }
    assert h.attrs[..|h.attrs|] == h.attrs;
    for i := 0 to |attrs|
      invariant buffer == message + RenderEntries(h.attrs) + RenderAttrs(h.groups, attrs[..i])
    {
      assert attrs[..i + 1] == attrs[..i] + [attrs[i]];
      RenderConcat(h.groups, attrs[..i], [attrs[i]]);
      buffer := buffer + RenderAttr(h.groups, attrs[i]);
    }
    assert attrs[..|attrs|] == attrs;
  }

  lemma {:induction false} RenderConcat(groups: seq<string>, a: seq<Attr>, b: seq<Attr>)
    ensures RenderAttrs(groups, a + b) == RenderAttrs(groups, a) + RenderAttrs(groups, b)
  {
    if a == [] {
      assert a + b == b;
    } else {
      assert (a + b)[1..] == a[1..] + b;
      RenderConcat(groups, a[1..], b);
    }
  }

  lemma {:induction false} RenderEntriesConcat(a: seq<Entry>, b: seq<Entry>)
    ensures RenderEntries(a + b) == RenderEntries(a) + RenderEntries(b)
  {
    if a == [] {
      assert a + b == b;
    } else {
      assert (a + b)[1..] == a[1..] + b;
      RenderEntriesConcat(a[1..], b);
    }
  }

  lemma {:induction false} RenderBound(groups: seq<string>, attrs: seq<Attr>)
    ensures RenderEntries(Entries(groups, attrs)) == RenderAttrs(groups, attrs)
  {
    if attrs != [] {
      assert Entries(groups, attrs)[1..] == Entries(groups, attrs[1..]);
      RenderBound(groups, attrs[1..]);
    }
  }

  /** An empty group prints nothing, so leaving it out changes nothing. */
  lemma {:induction false} EmptyGroupsPrintNothing(groups: seq<string>, attrs: seq<Attr>)
    ensures RenderAttrs(groups, WithoutEmptyGroups(attrs)) == RenderAttrs(groups, attrs)
  {
    if attrs != [] {
      EmptyGroupsPrintNothing(groups, attrs[1..]);
      var head := if IsEmptyGroup(attrs[0].value) then [] else [attrs[0]];
      RenderConcat(groups, head, WithoutEmptyGroups(attrs[1..]));
      assert RenderAttrs(groups, head) == RenderAttr(groups, attrs[0]);
    }
  }
}

/** What a line means: the fields it shows, each with the path of names that leads to it. */
module Fields {
  import opened Slog
  import Syslog

  datatype Field = Field(path: seq<string>, text: string)

  /** The fields of an attribute under the given names: a leaf is one field, a group its members in order. */
  function FieldsIn(names: seq<string>, attr: Attr): seq<Field>
    decreases attr, 0
  {
    var value := Resolve(attr.value);
    if value.Group? then FieldsOf(names + (if attr.key == "" then [] else [attr.key]), value.attrs)
    else if attr.key == "" then []
    else [Field(names + [attr.key], value.text)]
  }

  function FieldsOf(names: seq<string>, attrs: seq<Attr>): seq<Field>
    decreases attrs, 1
  {
    if attrs == [] then [] else FieldsIn(names, attrs[0]) + FieldsOf(names, attrs[1..])
  }

  function BoundFields(entries: seq<Syslog.Entry>): seq<Field> {
    if entries == [] then [] else FieldsIn(entries[0].groups, entries[0].attr) + BoundFields(entries[1..])
  }

  /** The names of a path with a dot between any two. */
  function Dotted(path: seq<string>): string {
    if path == [] then ""
    else if |path| == 1 then path[0]
    else Dotted(path[..|path| - 1]) + "." + path[|path| - 1]
  }

  function PrintField(f: Field): string {
    " " + Dotted(f.path) + "=" + f.text
  }

  function Print(fields: seq<Field>): string {
    if fields == [] then "" else PrintField(fields[0]) + Print(fields[1..])
  }

  lemma {:induction false} DottedFront(name: string, path: seq<string>)
    requires path != []
    ensures Dotted([name] + path) == name + "." + Dotted(path)
  {
    var all, last := [name] + path, |path| - 1;
    assert all[..|all| - 1] == [name] + path[..last] && all[|all| - 1] == path[last];
    if last > 0 {
      DottedFront(name, path[..last]);
      var front := Dotted(path[..last]);
      assert (name + "." + front) + "." + path[last] == name + "." + (front + "." + path[last]);
    } else {
      assert [name] + path[..last] == [name];
    }
  }

  /** A qualified key is the dotted path to it. */
  lemma {:induction false} KeyIsDotted(groups: seq<string>, key: string)
    ensures Syslog.QualifiedKey(groups, key) == Dotted(groups + [key])
  {
    if groups == [] {
      assert groups + [key] == [key];
    } else {
      KeyIsDotted(groups[1..], key);
      assert groups + [key] == [groups[0]] + (groups[1..] + [key]);
      DottedFront(groups[0], groups[1..] + [key]);
    }
  }

  lemma {:induction false} PrintConcat(a: seq<Field>, b: seq<Field>)
    ensures Print(a + b) == Print(a) + Print(b)
  {
    if a == [] {
      assert a + b == b;
    } else {
      assert (a + b)[1..] == a[1..] + b;
      PrintConcat(a[1..], b);
    }
  }

  lemma PrintOne(f: Field)
    ensures Print([f]) == PrintField(f)
  {
    assert [f][1..] == [];
  }

  lemma {:induction false} AttrPrints(names: seq<string>, attr: Attr)
    ensures Syslog.RenderAttr(names, attr) == Print(FieldsIn(names, attr))
    decreases attr, 0
  {
    hide Print, Syslog.QualifiedKey, Dotted;
    var value := Resolve(attr.value);
    if value.Group? {
      var inner := names + (if attr.key == "" then [] else [attr.key]);
      assert names + [] == names;
      AttrsPrint(inner, value.attrs);
    } else if attr.key != "" {
      KeyIsDotted(names, attr.key);
      PrintOne(Field(names + [attr.key], value.text));
    } else {
      PrintNone();
    }
  }

  lemma PrintNone()
    ensures Print([]) == ""
  {
  }

  lemma {:induction false} AttrsPrint(names: seq<string>, attrs: seq<Attr>)
    ensures Syslog.RenderAttrs(names, attrs) == Print(FieldsOf(names, attrs))
    decreases attrs, 1
  {
    if attrs != [] {
      AttrPrints(names, attrs[0]);
      AttrsPrint(names, attrs[1..]);
      PrintConcat(FieldsIn(names, attrs[0]), FieldsOf(names, attrs[1..]));
    }
  }

  lemma {:induction false} EntriesPrint(entries: seq<Syslog.Entry>)
    ensures Syslog.RenderEntries(entries) == Print(BoundFields(entries))
  {
    if entries != [] {
      AttrPrints(entries[0].groups, entries[0].attr);
      EntriesPrint(entries[1..]);
      PrintConcat(FieldsIn(entries[0].groups, entries[0].attr), BoundFields(entries[1..]));
    }
  }

  /** A line is its message and then its fields: the bound ones, then the record's, each once and in order. */
  lemma LinePrintsFields(h: Syslog.Handler, message: string, attrs: seq<Attr>)
    ensures Syslog.Line(h, message, attrs) == message + Print(BoundFields(h.attrs) + FieldsOf(h.groups, attrs))
  {
    hide Print;
    EntriesPrint(h.attrs);
    AttrsPrint(h.groups, attrs);
    var bound, own := BoundFields(h.attrs), FieldsOf(h.groups, attrs);
    PrintConcat(bound, own);
    assert message + Print(bound) + Print(own) == message + (Print(bound) + Print(own));
  }

  lemma {:induction false} FieldsConcat(names: seq<string>, a: seq<Attr>, b: seq<Attr>)
    ensures FieldsOf(names, a + b) == FieldsOf(names, a) + FieldsOf(names, b)
  {
    if a == [] {
      assert a + b == b;
    } else {
      assert (a + b)[1..] == a[1..] + b;
      FieldsConcat(names, a[1..], b);
    }
  }

  lemma {:induction false} BoundConcat(a: seq<Syslog.Entry>, b: seq<Syslog.Entry>)
    ensures BoundFields(a + b) == BoundFields(a) + BoundFields(b)
  {
    if a == [] {
      assert a + b == b;
    } else {
      assert (a + b)[1..] == a[1..] + b;
      BoundConcat(a[1..], b);
    }
  }

  lemma {:induction false} BoundAre(groups: seq<string>, attrs: seq<Attr>)
    ensures BoundFields(Syslog.Entries(groups, attrs)) == FieldsOf(groups, attrs)
  {
    if attrs != [] {
      assert Syslog.Entries(groups, attrs)[1..] == Syslog.Entries(groups, attrs[1..]);
      BoundAre(groups, attrs[1..]);
    }
  }
}

/** The enrich handler over a syslog handler (log/slog/enrich/handler.go). */
module Enrich {
  import opened Slog
  import Syslog

  datatype Scope = Scope(name: string, attrs: seq<Attr>)

  datatype Handler = Handler(next: Syslog.Handler, currentGroup: bool, groups: seq<Scope>)

  /** One registered source, with what its callback returned for the record at hand. */
  datatype Source = Extracted(attrs: seq<Attr>) | Valued(key: string, value: Value)

  function NewHandler(next: Syslog.Handler, currentGroup: bool): Handler {
    Handler(next, currentGroup, [])
  }

  /** The dynamic attributes, in registration order. */
  function Dynamic(sources: seq<Source>): seq<Attr> {
    if sources == [] then [] else
      var last := sources[|sources| - 1];
      Dynamic(sources[..|sources| - 1]) +
      (match last
       case Extracted(attrs) => attrs
       case Valued(key, value) => if IsEmptyGroup(value) then [] else [Attr(key, value)])
  }

  function WithAttrs(h: Handler, attrs: seq<Attr>): Handler {
    if attrs == [] then h
    else if h.groups == [] then h.(next := Syslog.Bind(h.next, attrs))
    else
      var last := |h.groups| - 1;
      h.(groups := h.groups[last := h.groups[last].(attrs := h.groups[last].attrs + attrs)])
  }

  function WithGroup(h: Handler, name: string): Handler {
    if name == "" then h
    else if h.currentGroup then h.(next := Syslog.Open(h.next, name))
    else h.(groups := h.groups + [Scope(name, [])])
  }

  datatype MaybeAttr = Nothing | Just(attr: Attr)

  /** The one tree that groups and record attributes make; nothing if it would be empty. */
  function Tree(groups: seq<Scope>, record: seq<Attr>): MaybeAttr
    requires groups != []
  {
    var inner :=
      if |groups| == 1 then record
      else match Tree(groups[1..], record)
           case Just(child) => [child]
           case Nothing => [];
    var attrs := groups[0].attrs + inner;
    if attrs == [] then Nothing else Just(Attr(groups[0].name, GroupValue(attrs)))
  }

  /** groupAttr: builds the tree from the innermost group outwards. */
  method GroupAttr(groups: seq<Scope>, record: seq<Attr>) returns (child: MaybeAttr)
    requires groups != []
    ensures child == Tree(groups, record)
  {
    child := Nothing;
    for i := |groups| downto 0
      invariant i < |groups| ==> child == Tree(groups[i..], record)
      invariant i == |groups| ==> child == Nothing
    {
      assert groups[i..][0] == groups[i] && groups[i..][1..] == groups[i + 1..];
      var g := groups[i];
      var attrs := g.attrs;
      if i == |groups| - 1 {
        attrs := attrs + record;
      } else if child.Just? {
        attrs := attrs + [child.attr];
      }
      assert g.attrs + [] == g.attrs;
      assert Tree(groups[i..], record) ==
             if attrs == [] then Nothing else Just(Attr(g.name, GroupValue(attrs)));
      if |attrs| == 0 {
        continue;
      }
      child := Just(Attr(g.name, GroupValue(attrs)));
    }
    assert groups[0..] == groups;
  }

  /** The attributes handed to the wrapped handler. */
  function Forwarded(h: Handler, sources: seq<Source>, record: seq<Attr>): seq<Attr> {
    if sources == [] && h.groups == [] then record
    else if h.groups == [] then WithoutEmptyGroups(Dynamic(sources) + record)
    else
      match Tree(h.groups, record)
      case Just(a) => WithoutEmptyGroups(Dynamic(sources) + [a])
      case Nothing => WithoutEmptyGroups(Dynamic(sources))
  }

  method Handle(h: Handler, sources: seq<Source>, message: string, record: seq<Attr>) returns (line: string)
    ensures line == Syslog.Line(h.next, message, Forwarded(h, sources, record))
  {
    if |sources| == 0 && |h.groups| == 0 {
      line := Syslog.FormatRecord(h.next, message, record);
      return;
    }
    var attrs := [];
    for i := 0 to |sources|
      invariant attrs == Dynamic(sources[..i])
    {
      assert sources[..i + 1][..i] == sources[..i];
      match sources[i]
      case Extracted(more) => attrs := attrs + more;
      case Valued(key, value) =>
        if IsEmptyGroup(value) {
          continue;
        }
        attrs := attrs + [Attr(key, value)];
    }
    assert sources[..|sources|] == sources;
    if |h.groups| == 0 {
      attrs := attrs + record;
    } else {
      var a := GroupAttr(h.groups, record);
      if a.Just? {
        attrs := attrs + [a.attr];
      }
    }
    line := Syslog.FormatRecord(h.next, message, WithoutEmptyGroups(attrs));
  }

  // ----- the same calls on both handlers -----

  datatype Call = AddAttrs(attrs: seq<Attr>) | AddGroup(name: string)

  function Direct(calls: seq<Call>): Syslog.Handler {
    if calls == [] then Syslog.FRESH else
      var h := Direct(calls[..|calls| - 1]);
      match calls[|calls| - 1]
      case AddAttrs(attrs) => Syslog.Bind(h, attrs)
      case AddGroup(name) => Syslog.Open(h, name)
  }

  function Enriched(currentGroup: bool, calls: seq<Call>): Handler {
    if calls == [] then NewHandler(Syslog.FRESH, currentGroup) else
      var h := Enriched(currentGroup, calls[..|calls| - 1]);
      match calls[|calls| - 1]
      case AddAttrs(attrs) => WithAttrs(h, attrs)
      case AddGroup(name) => WithGroup(h, name)
  }

  /** The attributes bound before the first group was opened. */
  function RootAttrs(calls: seq<Call>): seq<Attr> {
    if calls == [] then [] else
      match calls[0]
      case AddAttrs(attrs) => attrs + RootAttrs(calls[1..])
      case AddGroup(name) => if name == "" then RootAttrs(calls[1..]) else []
  }

  function Names(groups: seq<Scope>): seq<string> {
    seq(|groups|, i requires 0 <= i < |groups| => groups[i].name)
  }

  /** What native grouping prints for the attributes bound inside groups. */
  function RenderGroups(prefix: seq<string>, groups: seq<Scope>): string
    decreases |groups|
  {
    if groups == [] then "" else
      var path := prefix + [groups[0].name];
      Syslog.RenderAttrs(path, groups[0].attrs) + RenderGroups(path, groups[1..])
  }

  lemma {:induction false} RenderGroupsAppend(prefix: seq<string>, groups: seq<Scope>, g: Scope)
    ensures RenderGroups(prefix, groups + [g])
         == RenderGroups(prefix, groups) + Syslog.RenderAttrs(prefix + Names(groups) + [g.name], g.attrs)
    decreases |groups|
  {
    var all := groups + [g];
    if groups == [] {
      assert all[1..] == [] && prefix + Names(groups) == prefix;
    } else {
      var path := prefix + [groups[0].name];
      assert all[1..] == groups[1..] + [g];
      RenderGroupsAppend(path, groups[1..], g);
      assert prefix + Names(groups) == path + Names(groups[1..]);
    }
  }

  /** The rebuilt tree prints what native grouping prints. */
  lemma {:induction false} TreeRendersLikeGroups(prefix: seq<string>, groups: seq<Scope>, record: seq<Attr>)
    requires groups != [] && forall i :: 0 <= i < |groups| ==> groups[i].name != ""
    ensures RenderGroups(prefix, groups) + Syslog.RenderAttrs(prefix + Names(groups), record)
         == match Tree(groups, record)
            case Just(a) => Syslog.RenderAttr(prefix, a)
            case Nothing => ""
    decreases |groups|
  {
    var path := prefix + [groups[0].name];
    var inner :=
      if |groups| == 1 then record
      else match Tree(groups[1..], record)
           case Just(child) => [child]
           case Nothing => [];
    var attrs := groups[0].attrs + inner;
    assert RenderGroups(path, groups[1..]) + Syslog.RenderAttrs(prefix + Names(groups), record)
        == Syslog.RenderAttrs(path, inner) by {
      if |groups| == 1 {
        assert prefix + Names(groups) == path;
      } else {
        TreeRendersLikeGroups(path, groups[1..], record);
        assert prefix + Names(groups) == path + Names(groups[1..]);
      }
    }
    Syslog.RenderConcat(path, groups[0].attrs, inner);
    Syslog.EmptyGroupsPrintNothing(path, attrs);
  }

  lemma {:induction false} NamesAppend(groups: seq<Scope>, g: Scope)
    ensures Names(groups + [g]) == Names(groups) + [g.name]
  {
  }

  /** Default mode: the wrapped handler keeps the root attributes, the wrapper's scopes mirror the open groups. */
  ghost predicate Mirrors(direct: Syslog.Handler, h: Handler) {
    && !h.currentGroup && h.next.groups == []
    && direct.groups == Names(h.groups)
    && (forall i :: 0 <= i < |h.groups| ==> h.groups[i].name != "")
    && Syslog.RenderEntries(direct.attrs) == Syslog.RenderEntries(h.next.attrs) + RenderGroups([], h.groups)
  }

  lemma {:induction false} AddAttrsMirrors(direct: Syslog.Handler, h: Handler, attrs: seq<Attr>)
    requires Mirrors(direct, h)
    ensures Mirrors(Syslog.Bind(direct, attrs), WithAttrs(h, attrs))
  {
    var added := Syslog.Entries(direct.groups, attrs);
    Syslog.RenderEntriesConcat(direct.attrs, added);
    Syslog.RenderBound(direct.groups, attrs);
    if attrs == [] {
      assert direct.attrs + added == direct.attrs;
    } else if h.groups == [] {
      Syslog.RenderEntriesConcat(h.next.attrs, Syslog.Entries([], attrs));
      assert RenderGroups([], h.groups) == "";
    } else {
      LastScopeGrows(h.groups, attrs);
      var more := Syslog.RenderAttrs(direct.groups, attrs);
      var root, grouped := Syslog.RenderEntries(h.next.attrs), RenderGroups([], h.groups);
      assert (root + grouped) + more == root + (grouped + more);
    }
  }

  lemma {:induction false} LastScopeGrows(groups: seq<Scope>, attrs: seq<Attr>)
    requires groups != []
    ensures var last := |groups| - 1;
            var grown := groups[last := groups[last].(attrs := groups[last].attrs + attrs)];
            && Names(grown) == Names(groups)
            && RenderGroups([], grown) == RenderGroups([], groups) + Syslog.RenderAttrs(Names(groups), attrs)
  {
    var last := |groups| - 1;
    var front, g := groups[..last], groups[last];
    assert groups == front + [g];
    assert groups[last := g.(attrs := g.attrs + attrs)] == front + [g.(attrs := g.attrs + attrs)];
    NamesAppend(front, g);
    NamesAppend(front, g.(attrs := g.attrs + attrs));
    ScopeGrows(front, g, attrs);
  }

  lemma {:induction false} ScopeGrows(front: seq<Scope>, g: Scope, attrs: seq<Attr>)
    ensures RenderGroups([], front + [g.(attrs := g.attrs + attrs)]) ==
            RenderGroups([], front + [g]) + Syslog.RenderAttrs(Names(front) + [g.name], attrs)
  {
    RenderGroupsAppend([], front, g);
    RenderGroupsAppend([], front, g.(attrs := g.attrs + attrs));
    var path := Names(front) + [g.name];
    assert [] + Names(front) + [g.name] == path;
    Syslog.RenderConcat(path, g.attrs, attrs);
    var before := RenderGroups([], front);
    var own, more := Syslog.RenderAttrs(path, g.attrs), Syslog.RenderAttrs(path, attrs);
    assert before + (own + more) == (before + own) + more;
  }

  lemma {:induction false} AddGroupMirrors(direct: Syslog.Handler, h: Handler, name: string)
    requires Mirrors(direct, h)
    ensures Mirrors(Syslog.Open(direct, name), WithGroup(h, name))
  {
    if name != "" {
      RenderGroupsAppend([], h.groups, Scope(name, []));
      NamesAppend(h.groups, Scope(name, []));
    }
  }

  lemma {:induction false} CallsMirror(calls: seq<Call>)
    ensures Mirrors(Direct(calls), Enriched(false, calls))
  {
    if calls != [] {
      var last := |calls| - 1;
      CallsMirror(calls[..last]);
      match calls[last]
      case AddAttrs(attrs) => AddAttrsMirrors(Direct(calls[..last]), Enriched(false, calls[..last]), attrs);
      case AddGroup(name) => AddGroupMirrors(Direct(calls[..last]), Enriched(false, calls[..last]), name);
    } else {
      assert Names([]) == [];
    }
  }

  lemma {:induction false} RootAttrsAppend(calls: seq<Call>, call: Call)
    ensures RootAttrs(calls + [call]) ==
            RootAttrs(calls) + (if call.AddAttrs? && !OpensGroup(calls) then call.attrs else [])
  {
    var all := calls + [call];
    if calls == [] {
      assert all[1..] == [];
    } else {
      assert all[0] == calls[0] && all[1..] == calls[1..] + [call];
      RootAttrsAppend(calls[1..], call);
      assert OpensGroup(calls) <==> (calls[0].AddGroup? && calls[0].name != "") || OpensGroup(calls[1..]) by {
        if OpensGroup(calls) && !(calls[0].AddGroup? && calls[0].name != "") {
          var i :| 0 <= i < |calls| && calls[i].AddGroup? && calls[i].name != "";
          assert calls[1..][i - 1] == calls[i];
        }
        if OpensGroup(calls[1..]) {
          var i :| 0 <= i < |calls[1..]| && calls[1..][i].AddGroup? && calls[1..][i].name != "";
          assert calls[i + 1] == calls[1..][i];
        }
      }
    }
  }

  predicate OpensGroup(calls: seq<Call>) {
    exists i :: 0 <= i < |calls| && calls[i].AddGroup? && calls[i].name != ""
  }

  /** The wrapped handler holds precisely the attributes bound before the first group. */
  lemma {:induction false} WrappedHoldsRoot(calls: seq<Call>)
    ensures var h := Enriched(false, calls);
            && !h.currentGroup && h.next == Syslog.Bind(Syslog.FRESH, RootAttrs(calls))
            && (h.groups != [] <==> OpensGroup(calls))
  {
    if calls != [] {
      var last := |calls| - 1;
      var before := calls[..last];
      WrappedHoldsRoot(before);
      assert calls == before + [calls[last]];
      RootAttrsAppend(before, calls[last]);
      var h := Enriched(false, before);
      if calls[last].AddAttrs? && calls[last].attrs != [] && !OpensGroup(before) {
        var root, more := RootAttrs(before), calls[last].attrs;
        assert Syslog.Entries([], root) + Syslog.Entries([], more) == Syslog.Entries([], root + more);
      }
      assert OpensGroup(calls) <==> OpensGroup(before) || (calls[last].AddGroup? && calls[last].name != "") by {
        if OpensGroup(before) {
          var i :| 0 <= i < |before| && before[i].AddGroup? && before[i].name != "";
          assert calls[i] == before[i];
        }
      }
    }
  }

  /** The text after the root attributes that the syslog handler prints when used directly. */
  function Rest(calls: seq<Call>, record: seq<Attr>): string {
    var h := Enriched(false, calls);
    RenderGroups([], h.groups) + Syslog.RenderAttrs(Names(h.groups), record)
  }

  /**
   For every sequence of WithAttrs and WithGroup calls and every record, the enrich handler over a fresh
   syslog handler prints the line the syslog handler would print by itself, with the dynamic attributes
   inserted, unqualified, right after the attributes bound before the first group.
   */
  lemma {:induction false} EnrichedLineIsDirectLine(calls: seq<Call>, sources: seq<Source>, message: string,
      record: seq<Attr>)
    ensures var root := Syslog.RenderAttrs([], RootAttrs(calls));
            var dynamic := Syslog.RenderAttrs([], Dynamic(sources));
            var rest := Rest(calls, record);
            var h := Enriched(false, calls);
            && Syslog.Line(Direct(calls), message, record) == message + root + rest
            && Syslog.Line(h.next, message, Forwarded(h, sources, record)) == message + root + dynamic + rest
  {
    CallsMirror(calls);
    WrappedHoldsRoot(calls);
    var h := Enriched(false, calls);
    var root, dynamic := Syslog.RenderAttrs([], RootAttrs(calls)), Syslog.RenderAttrs([], Dynamic(sources));
    var grouped, own := RenderGroups([], h.groups), Syslog.RenderAttrs(Names(h.groups), record);
    assert Syslog.RenderEntries(h.next.attrs) == root by {
      assert h.next.attrs == Syslog.Entries([], RootAttrs(calls));
      Syslog.RenderBound([], RootAttrs(calls));
    }
    ForwardedRenders(h, sources, record);
    Regroup(message, root, grouped, own);
    Regroup(message, root, dynamic, grouped + own);
  }

  lemma {:induction false} Regroup(a: string, b: string, c: string, d: string)
    ensures a + (b + c) + d == a + b + (c + d)
    ensures a + b + (c + d) == a + b + c + d
  {
  }

  lemma {:induction false} ForwardedRenders(h: Handler, sources: seq<Source>, record: seq<Attr>)
    requires forall i :: 0 <= i < |h.groups| ==> h.groups[i].name != ""
    ensures Syslog.RenderAttrs([], Forwarded(h, sources, record)) ==
            Syslog.RenderAttrs([], Dynamic(sources))
            + (RenderGroups([], h.groups) + Syslog.RenderAttrs(Names(h.groups), record))
  {
    if h.groups == [] {
      assert Names(h.groups) == [];
      var own := Syslog.RenderAttrs([], record);
      assert "" + own == own;
      DroppedRenders(Dynamic(sources), record);
    } else {
      TreeRendersLikeGroups([], h.groups, record);
      assert [] + Names(h.groups) == Names(h.groups);
      match Tree(h.groups, record)
      case Just(a) =>
        DroppedRenders(Dynamic(sources), [a]);
        SingleRenders(a);
      case Nothing =>
        DroppedRenders(Dynamic(sources), []);
        assert Dynamic(sources) + [] == Dynamic(sources);
    }
  }

  lemma {:induction false} DroppedRenders(a: seq<Attr>, b: seq<Attr>)
    ensures Syslog.RenderAttrs([], WithoutEmptyGroups(a + b)) == Syslog.RenderAttrs([], a) + Syslog.RenderAttrs([], b)
  {
    Syslog.EmptyGroupsPrintNothing([], a + b);
    Syslog.RenderConcat([], a, b);
  }

  lemma {:induction false} SingleRenders(a: Attr)
    ensures Syslog.RenderAttrs([], [a]) == Syslog.RenderAttr([], a)
  {
    var rest := [a][1..];
    assert rest == [];
    assert Syslog.RenderAttrs([], [a]) == Syslog.RenderAttr([], a) + Syslog.RenderAttrs([], rest);
  }

  /** With WithCurrentGroup every call is delegated, and the dynamic attributes simply come before the record's own. */
  lemma {:induction false} DelegatingHandlerIsDirect(calls: seq<Call>)
    ensures var h := Enriched(true, calls);
            h.currentGroup && h.groups == [] && h.next == Direct(calls)
  {
    if calls != [] {
      var last := |calls| - 1;
      DelegatingHandlerIsDirect(calls[..last]);
      var h := Enriched(true, calls[..last]);
      match calls[last]
      case AddAttrs(attrs) =>
        assert attrs == [] ==> h.next.attrs + Syslog.Entries(h.next.groups, attrs) == h.next.attrs;
      case AddGroup(name) =>
    }
  }

  lemma {:induction false} CurrentGroupLine(calls: seq<Call>, sources: seq<Source>, message: string, record: seq<Attr>)
    ensures var h := Enriched(true, calls);
            Syslog.Line(h.next, message, Forwarded(h, sources, record)) ==
            Syslog.Line(Direct(calls), message, Dynamic(sources) + record)
  {
    DelegatingHandlerIsDirect(calls);
    var h := Enriched(true, calls);
    Syslog.EmptyGroupsPrintNothing(h.next.groups, Dynamic(sources) + record);
    if sources == [] {
      assert Dynamic(sources) + record == record;
    }
  }
}

/** What both handlers show, told from the calls made on them alone. */
module ShownFields {
  import opened Slog
  import opened Fields
  import opened Enrich
  import Syslog

  /** The groups opened so far; opening a nameless one is no call at all. */
  function OpenNames(calls: seq<Call>): seq<string> {
    if calls == [] then [] else
      var last := calls[|calls| - 1];
      OpenNames(calls[..|calls| - 1]) + (if last.AddGroup? && last.name != "" then [last.name] else [])
  }

  /** The fields bound by the calls, each under the groups open at the time. */
  function CallFields(calls: seq<Call>): seq<Field> {
    if calls == [] then [] else
      var before, last := calls[..|calls| - 1], calls[|calls| - 1];
      CallFields(before) + (if last.AddAttrs? then FieldsOf(OpenNames(before), last.attrs) else [])
  }

  /** The fields the registered sources contribute, in registration order. */
  function SourceFields(sources: seq<Source>): seq<Field> {
    if sources == [] then [] else
      var last := sources[|sources| - 1];
      SourceFields(sources[..|sources| - 1]) +
      (match last
       case Extracted(attrs) => FieldsOf([], attrs)
       case Valued(key, value) => FieldsIn([], Attr(key, value)))
  }

  lemma {:induction false} DirectHolds(calls: seq<Call>)
    ensures Direct(calls).groups == OpenNames(calls) && BoundFields(Direct(calls).attrs) == CallFields(calls)
  {
    if calls != [] {
      var before, last := calls[..|calls| - 1], calls[|calls| - 1];
      DirectHolds(before);
      var h := Direct(before);
      if last.AddAttrs? {
        BoundConcat(h.attrs, Syslog.Entries(h.groups, last.attrs));
        BoundAre(h.groups, last.attrs);
      }
    }
  }

  /**
   The syslog handler shows every attribute bound before and in the record, under the groups open when it
   was bound, once and in order.
   */
  lemma DirectLineShows(calls: seq<Call>, message: string, record: seq<Attr>)
    ensures Syslog.Line(Direct(calls), message, record)
         == message + Print(CallFields(calls) + FieldsOf(OpenNames(calls), record))
  {
    DirectHolds(calls);
    LinePrintsFields(Direct(calls), message, record);
  }

  lemma {:induction false} DynamicAre(sources: seq<Source>)
    ensures FieldsOf([], Dynamic(sources)) == SourceFields(sources)
  {
    if sources != [] {
      var before, last := sources[..|sources| - 1], sources[|sources| - 1];
      DynamicAre(before);
      var more := match last
        case Extracted(attrs) => attrs
        case Valued(key, value) => if IsEmptyGroup(value) then [] else [Attr(key, value)];
      FieldsConcat([], Dynamic(before), more);
      if last.Valued? {
        OneAttr(Attr(last.key, last.value));
        EmptyGroupShowsNothing(Attr(last.key, last.value));
      }
    }
  }

  lemma OneAttr(attr: Attr)
    ensures FieldsOf([], [attr]) == FieldsIn([], attr)
  {
    assert [attr][1..] == [];
  }

  lemma EmptyGroupShowsNothing(attr: Attr)
    ensures IsEmptyGroup(attr.value) ==> FieldsIn([], attr) == []
  {
  }

  /**
   The enrich handler shows the fields bound before the first group, then those of its sources, under no
   group, and then exactly what the syslog handler shows after the former.
   */
  lemma EnrichedLineShows(calls: seq<Call>, sources: seq<Source>, message: string, record: seq<Attr>)
    ensures var root := FieldsOf([], RootAttrs(calls));
            var h := Enriched(false, calls);
            && message + Print(CallFields(calls) + FieldsOf(OpenNames(calls), record))
               == message + Print(root) + Rest(calls, record)
            && Syslog.Line(h.next, message, Forwarded(h, sources, record))
               == message + Print(root) + Print(SourceFields(sources)) + Rest(calls, record)
  {
    hide Print, Enriched, Forwarded, Rest, Syslog.Line;
    EnrichedLineIsDirectLine(calls, sources, message, record);
    DirectLineShows(calls, message, record);
    AttrsPrint([], RootAttrs(calls));
    AttrsPrint([], Dynamic(sources));
    DynamicAre(sources);
  }
}
