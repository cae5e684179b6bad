/**
 * The tab completer of the CLI (makeCliCompleter): the typed line is split
 * into tokens, the tokens before the last one walk a fixed command tree,
 * and the node reached offers the options that start with the last token.
 * Each offer is returned as a whole line.
 */
module CliCompleter {
  import opened Common

  // ------------------------------------------------------------------
  // List helpers

  /** options.filter((o) => o.startsWith(prefix)) */
  function FilterPrefix(options: seq<string>, p: string): (r: seq<string>)
    ensures forall x :: x in r <==> x in options && StartsWith(x, p)
    ensures |r| <= |options|
  {
    if options == [] then []
    else
      var o := options[|options| - 1];
      FilterPrefix(options[..|options| - 1], p) + (if StartsWith(o, p) then [o] else [])
  }

  /** Filtering keeps the order of the options: it distributes over concatenation. */
  lemma {:induction false} FilterPrefixAppend(a: seq<string>, b: seq<string>, p: string)
    ensures FilterPrefix(a + b, p) == FilterPrefix(a, p) + FilterPrefix(b, p)
    decreases |b|
  {
    if b == [] {
      assert a + b == a;
    } else {
      var o := b[|b| - 1];
      assert (a + b)[..|a + b| - 1] == a + b[..|b| - 1];
      FilterPrefixAppend(a, b[..|b| - 1], p);
    }
  }

  predicate NoDuplicates(s: seq<string>)
  {
    forall i, j :: 0 <= i < j < |s| ==> s[i] != s[j]
  }

  /** Array.from(new Set(list)): each value once, at its first occurrence. */
  function Uniq(s: seq<string>): (r: seq<string>)
    ensures forall x :: x in r <==> x in s
    ensures NoDuplicates(r)
    ensures |r| <= |s|
  {
    if s == [] then []
    else
      var u := Uniq(s[..|s| - 1]);
      var x := s[|s| - 1];
      if x in u then u else u + [x]
  }

  /** A list without repeats is its own set. */
  lemma {:induction false} UniqOfDistinct(s: seq<string>)
    requires NoDuplicates(s)
    ensures Uniq(s) == s
  {
    if s != [] {
      var init := s[..|s| - 1];
      assert NoDuplicates(init);
      UniqOfDistinct(init);
      assert s[|s| - 1] !in init;
      assert init + [s[|s| - 1]] == s;
    }
  }

  // ------------------------------------------------------------------
  // The command tree

  /** Where a dynamic node takes its options from. */
  datatype Source = Buses | Zones | DeviceIds | ConfigFiles

  /** The completer's node types: options, dynamic options, a fixed sequence by depth, and named children. */
  datatype Node =
    | Options(options: seq<string>)
    | Dynamic(source: Source)
    | Sequence(nodes: seq<Node>)
    | Children(children: seq<Child>, options: seq<string>)

  datatype Child = Child(key: string, node: Node)

  function Keys(cs: seq<Child>): (ks: seq<string>)
    ensures |ks| == |cs|
    ensures forall i :: 0 <= i < |cs| ==> ks[i] == cs[i].key
  {
    if cs == [] then [] else [cs[0].key] + Keys(cs[1..])
  }

  /** children[key], absent when no child has that key (the first one wins). */
  function Lookup(cs: seq<Child>, key: string): (r: Option<Node>)
    ensures r.None? <==> key !in Keys(cs)
    ensures r.Some? ==> exists i :: 0 <= i < |cs| && cs[i] == Child(key, r.value)
  {
    if cs == [] then None
    else if cs[0].key == key then Some(cs[0].node)
    else Lookup(cs[1..], key)
  }

  /** childrenNode(children, options): the options given, or the children's keys when none are. */
  function ChildrenNode(cs: seq<Child>, options: seq<string>): (n: Node)
    ensures n.Children? && n.children == cs
    ensures n.options == if options != [] then options else Keys(cs)
  {
    Children(cs, if options != [] then options else Keys(cs))
  }

  const InjectOptions: seq<string> := ["on", "off", "status"]

  const TapNode: Node := Sequence([Dynamic(Buses), Options(["on", "off", "status"])])
  const PresenceNode: Node := Sequence([Dynamic(Zones), Options(["on", "off"])])
  const InjectPayloads: seq<string> := ["{\"type\":\"press\",\"ms\":200}", "press", "press 200"]

  const DeviceChildren: seq<Child> := [
    Child("list", Options([])),
    Child("block", Sequence([Dynamic(DeviceIds)])),
    Child("unblock", Sequence([Dynamic(DeviceIds)])),
    Child("inject", Sequence([Dynamic(DeviceIds), Options(InjectPayloads)]))
  ]

  const DriverChildren: seq<Child> := [
    Child("list", Options([])),
    Child("enable", Sequence([Dynamic(DeviceIds)])),
    Child("disable", Sequence([Dynamic(DeviceIds)]))
  ]

  const ClockChildren: seq<Child> := [
    Child("now", Options([])),
    Child("status", Options([])),
    Child("freeze", Options([])),
    Child("resume", Options([])),
    Child("set", Sequence([Options(["YYYY-MM-DD"]), Options(["HH:MM"])]))
  ]
  const ClockOptions: seq<string> := ["now", "status", "freeze", "resume", "set", "+100", "+500", "+1000", "+5000", "+60000"]

  const ConfigChildren: seq<Child> := [
    Child("load", Sequence([Dynamic(ConfigFiles)])),
    Child("print", Options([]))
  ]

  const TopChildren: seq<Child> := [
    Child("help", Options([])),
    Child("exit", Options([])),
    Child("inject", Options(InjectOptions)),
    Child("tap", TapNode),
    Child("presence", PresenceNode),
    Child("vibration", Options(["low", "high"])),
    Child("button", Options(["short", "long"])),
    Child("device", ChildrenNode(DeviceChildren, ["list", "block", "unblock", "inject"])),
    Child("driver", ChildrenNode(DriverChildren, ["list", "enable", "disable"])),
    Child("clock", ChildrenNode(ClockChildren, ClockOptions)),
    Child("core", ChildrenNode([Child("state", Options([]))], ["state"])),
    Child("config", ChildrenNode(ConfigChildren, ["load", "print"]))
  ]

  /** commandTree */
  const CommandTree: Node := ChildrenNode(TopChildren, [])

  /** The top-level options: the command names in their order. */
  const TopOptions: seq<string> :=
    ["help", "exit", "inject", "tap", "presence", "vibration", "button", "device", "driver", "clock", "core", "config"]

  // ------------------------------------------------------------------
  // Dynamic options, from the application context

  /**
   * What the dynamic nodes read from the context: the bus names, the
   * configured zone names, the configured device ids ("" for a device
   * without one) and the files of the config directory.
   */
  datatype Context = Context(busKeys: seq<string>, zoneKeys: seq<string>, deviceIds: seq<string>, configFiles: seq<string>)

  function NonEmpty(ids: seq<string>): (r: seq<string>)
    ensures forall x :: x in r <==> x in ids && x != []
  {
    if ids == [] then []
    else (if ids[0] != [] then [ids[0]] else []) + NonEmpty(ids[1..])
  }

  /** The file names ending in .json or .json5. */
  function JsonFiles(files: seq<string>): (r: seq<string>)
    ensures forall x :: x in r <==> x in files && (EndsWith(x, ".json") || EndsWith(x, ".json5"))
  {
    if files == [] then []
    else (if EndsWith(files[0], ".json") || EndsWith(files[0], ".json5") then [files[0]] else []) + JsonFiles(files[1..])
  }

  /** listBuses, listZones, listDeviceIds, listConfigFiles */
  function DynamicOptions(ctx: Context, source: Source, prefix: string): (r: seq<string>)
    ensures forall s :: s in r ==> StartsWith(s, prefix)
    ensures source == Buses ==> forall s :: s in r <==> (s in ctx.busKeys || s == "all") && StartsWith(s, prefix)
    ensures source == Zones && ctx.zoneKeys == [] ==> forall s :: s in r <==> s in ["front", "back"] && StartsWith(s, prefix)
    ensures source == DeviceIds ==> forall s :: s in r <==> s in ctx.deviceIds && s != [] && StartsWith(s, prefix)
  {
    match source
    case Buses => FilterPrefix(Uniq(ctx.busKeys + ["all"]), prefix)
    case Zones => FilterPrefix(Uniq(if ctx.zoneKeys != [] then ctx.zoneKeys else ["front", "back"]), prefix)
    case DeviceIds => FilterPrefix(Uniq(NonEmpty(ctx.deviceIds)), prefix)
    case ConfigFiles => FilterPrefix(JsonFiles(ctx.configFiles), prefix)
  }

  // ------------------------------------------------------------------
  // Traversal

  /** getNodeSuggestions(node, getContext, prefix) */
  function NodeSuggestions(node: Option<Node>, ctx: Context, prefix: string): (r: seq<string>)
    ensures forall s :: s in r ==> StartsWith(s, prefix)
  {
    match node
    case None => []
    case Some(Dynamic(source)) => DynamicOptions(ctx, source, prefix)
    case Some(Options(options)) => FilterPrefix(options, prefix)
    case Some(Children(_, options)) => FilterPrefix(options, prefix)
    case Some(Sequence(_)) => []
  }

  /** `node.sequence[idx] || null` */
  function At(nodes: seq<Node>, i: int): (r: Option<Node>)
    ensures r.Some? <==> 0 <= i < |nodes|
  {
    if 0 <= i < |nodes| then Some(nodes[i]) else None
  }

  /** `tokens[tokens.length - 1] || ''`: the token being typed. */
  function CurrentPrefix(tokens: seq<string>): string
  {
    if tokens == [] then [] else tokens[|tokens| - 1]
  }

  /** tokens.slice(0, -1): the tokens already typed. */
  function Done(tokens: seq<string>): (parts: seq<string>)
    ensures |parts| == if tokens == [] then 0 else |tokens| - 1
  {
    if tokens == [] then [] else tokens[..|tokens| - 1]
  }

  /** traverseForSuggestions({ root, tokens, getContext }) */
  function Traverse(root: Node, tokens: seq<string>, ctx: Context): (r: seq<string>)
    ensures forall s :: s in r ==> StartsWith(s, CurrentPrefix(tokens))
  {
    var prefix := CurrentPrefix(tokens);
    var parts := Done(tokens);
    match root
    case Sequence(nodes) => NodeSuggestions(At(nodes, Max(0, |parts| - 1)), ctx, prefix)
    case Children(cs, _) =>
      if parts == [] then NodeSuggestions(Some(root), ctx, prefix)
      else
        (match Lookup(cs, parts[0])
         case None => NodeSuggestions(Some(root), ctx, prefix)
         case Some(child) => ChildSuggestions(child, parts, ctx, prefix))
    case _ => []
  }

  /** The part of traverseForSuggestions below a known command. */
  function ChildSuggestions(child: Node, parts: seq<string>, ctx: Context, prefix: string): (r: seq<string>)
    requires parts != []
    ensures forall s :: s in r ==> StartsWith(s, prefix)
  {
    match child
    case Sequence(nodes) => NodeSuggestions(At(nodes, Max(0, |parts| - 1)), ctx, prefix)
    case Children(cs, _) =>
      if |parts| == 1 then NodeSuggestions(Some(child), ctx, prefix)
      else
        (match Lookup(cs, parts[1])
         case None => NodeSuggestions(Some(child), ctx, prefix)
         case Some(Sequence(nodes)) => NodeSuggestions(At(nodes, Max(0, |parts| - 2)), ctx, prefix)
         case Some(_) => [])
    case _ => NodeSuggestions(Some(child), ctx, prefix)
  }

  /** At a children node, nothing typed before the current token or an unknown first token offers the node's own options. */
  lemma ChildrenFallback(cs: seq<Child>, options: seq<string>, tokens: seq<string>, ctx: Context)
    requires |Done(tokens)| == 0 || Done(tokens)[0] !in Keys(cs)
    ensures Traverse(Children(cs, options), tokens, ctx) == FilterPrefix(options, CurrentPrefix(tokens))
  {
  }

  /** The command names are the children of the tree, in order, and its options. */
  lemma TopKeys()
    ensures Keys(TopChildren) == TopOptions
    ensures CommandTree == Children(TopChildren, TopOptions)
  {
    var ks := Keys(TopChildren);
    assert |ks| == |TopOptions|;
    forall i | 0 <= i < |ks| ensures ks[i] == TopOptions[i] {
    }
  }

  /** The child found under a key is the first one with that key. */
  lemma {:induction false} LookupIndex(cs: seq<Child>, i: nat)
    requires i < |cs|
    requires forall j :: 0 <= j < i ==> cs[j].key != cs[i].key
    ensures Lookup(cs, cs[i].key) == Some(cs[i].node)
  {
    if i > 0 {
      LookupIndex(cs[1..], i - 1);
    }
  }

  /** With nothing typed before the current token, or an unknown command, the command names are offered. */
  lemma TopLevelFallback(tokens: seq<string>, ctx: Context)
    requires |Done(tokens)| == 0 || Done(tokens)[0] !in TopOptions
    ensures Traverse(CommandTree, tokens, ctx) == FilterPrefix(TopOptions, CurrentPrefix(tokens))
  {
    TopKeys();
    ChildrenFallback(TopChildren, TopOptions, tokens, ctx);
  }

  /** Below a command whose node is a sequence, the position is the number of tokens typed after the command. */
  lemma SequenceChild(cs: seq<Child>, options: seq<string>, tokens: seq<string>, nodes: seq<Node>, ctx: Context)
    requires |tokens| >= 2 && Lookup(cs, tokens[0]) == Some(Sequence(nodes))
    ensures Traverse(Children(cs, options), tokens, ctx)
      == NodeSuggestions(At(nodes, |tokens| - 2), ctx, tokens[|tokens| - 1])
  {
    var parts := Done(tokens);
    assert parts[0] == tokens[0];
    assert CurrentPrefix(tokens) == tokens[|tokens| - 1];
    assert Max(0, |parts| - 1) == |tokens| - 2;
    assert ChildSuggestions(Sequence(nodes), parts, ctx, tokens[|tokens| - 1])
      == NodeSuggestions(At(nodes, |tokens| - 2), ctx, tokens[|tokens| - 1]);
  }

  /** Below a command with sub-commands, a sub-command whose node is a sequence is read by position too. */
  lemma SequenceGrandchild(cs: seq<Child>, options: seq<string>, tokens: seq<string>, sub: seq<Child>, subOptions: seq<string>, nodes: seq<Node>, ctx: Context)
    requires |tokens| >= 3 && Lookup(cs, tokens[0]) == Some(Children(sub, subOptions))
    requires Lookup(sub, tokens[1]) == Some(Sequence(nodes))
    ensures Traverse(Children(cs, options), tokens, ctx)
      == NodeSuggestions(At(nodes, |tokens| - 3), ctx, tokens[|tokens| - 1])
  {
    var parts := Done(tokens);
    assert parts[0] == tokens[0] && parts[1] == tokens[1];
    assert CurrentPrefix(tokens) == tokens[|tokens| - 1];
    assert Max(0, |parts| - 2) == |tokens| - 3;
    assert ChildSuggestions(Children(sub, subOptions), parts, ctx, tokens[|tokens| - 1])
      == NodeSuggestions(At(nodes, |tokens| - 3), ctx, tokens[|tokens| - 1]);
  }

  /** `presence ZONE <tab>` offers on and off, whatever the zone typed. */
  lemma PresenceState(zone: string, current: string, ctx: Context)
    ensures Traverse(CommandTree, ["presence", zone, current], ctx) == FilterPrefix(["on", "off"], current)
  {
    var tokens := ["presence", zone, current];
    var nodes := PresenceNode.nodes;
    assert tokens[0] == "presence" && tokens[2] == current;
    PresenceLookup();
    SequenceChild(TopChildren, TopOptions, tokens, nodes, ctx);
    assert At(nodes, 1) == Some(Options(["on", "off"]));
    assert Traverse(Children(TopChildren, TopOptions), tokens, ctx) == FilterPrefix(["on", "off"], current);
    TopKeys();
  }

  lemma PresenceLookup()
    ensures Lookup(TopChildren, "presence") == Some(PresenceNode)
  {
    assert TopChildren[4] == Child("presence", PresenceNode);
    LookupIndex(TopChildren, 4);
  }

  const DeviceNode: Node := Children(DeviceChildren, ["list", "block", "unblock", "inject"])

  lemma DeviceLookup()
    ensures Lookup(TopChildren, "device") == Some(DeviceNode)
  {
    assert TopChildren[7] == Child("device", DeviceNode);
    LookupIndex(TopChildren, 7);
  }

  lemma DeviceInjectLookup()
    ensures Lookup(DeviceChildren, "inject") == Some(Sequence([Dynamic(DeviceIds), Options(InjectPayloads)]))
  {
    LookupIndex(DeviceChildren, 3);
  }

  /** `device inject ID <tab>` offers the sample payloads. */
  lemma DeviceInjectPayload(id: string, current: string, ctx: Context)
    ensures Traverse(CommandTree, ["device", "inject", id, current], ctx) == FilterPrefix(InjectPayloads, current)
  {
    var tokens := ["device", "inject", id, current];
    var nodes := [Dynamic(DeviceIds), Options(InjectPayloads)];
    assert tokens[0] == "device" && tokens[1] == "inject" && tokens[3] == current;
    DeviceLookup();
    DeviceInjectLookup();
    SequenceGrandchild(TopChildren, TopOptions, tokens, DeviceChildren, DeviceNode.options, nodes, ctx);
    assert At(nodes, 1) == Some(Options(InjectPayloads));
    assert Traverse(Children(TopChildren, TopOptions), tokens, ctx) == FilterPrefix(InjectPayloads, current);
    TopKeys();
  }

  // ------------------------------------------------------------------
  // Splitting the line and completing it

  /** `/\s$/.test(line)` */
  predicate EndsWithSpace(line: string)
  {
    line != [] && IsJsSpace(line[|line| - 1])
  }

  /** splitTokens(line): the words of the line, and an empty token when it ends in white space. */
  function SplitTokens(line: string): (r: seq<string>)
    ensures EndsWithSpace(line) <==> r != [] && r[|r| - 1] == []
    ensures forall i :: 0 <= i < |r| ==> IsWord(r[i]) || (i == |r| - 1 && r[i] == [])
    ensures Trim(line) == [] ==> r == [] || r == [[]]
  {
    var ws := if Trim(line) != [] then Words(Trim(line)) else [];
    if EndsWithSpace(line) then ws + [[]] else ws
  }

  /** A string of white space has no words. */
  lemma {:induction false} WordsOfSpaces(s: string)
    requires forall k :: 0 <= k < |s| ==> IsJsSpace(s[k])
    ensures Words(s) == []
  {
    LeadingCountPrefix(s, [], IsJsSpace);
    assert s + [] == s;
    assert s[|s|..] == [];
  }

  /** The last word of a string that ends in a non-space character is a suffix of it. */
  lemma {:induction false} LastWordIsSuffix(s: string)
    requires s != [] && !IsJsSpace(s[|s| - 1])
    ensures Words(s) != [] && EndsWith(s, Words(s)[|Words(s)| - 1])
    decreases |s|
  {
    var w, rest := FirstWord(s);
    if rest == [] {
      assert Words(s) == [w];
    } else {
      LastWordIsSuffix(rest);
      var v := Words(rest)[|Words(rest)| - 1];
      assert Words(s)[|Words(s)| - 1] == v;
      SuffixOfSuffix(s, rest, v);
    }
  }

  /** Words peels off the first word; what follows it is a suffix of s ending where s ends. */
  lemma FirstWord(s: string) returns (w: string, rest: string)
    requires s != [] && !IsJsSpace(s[|s| - 1])
    ensures Words(s) == [w] + Words(rest) && |rest| < |s|
    ensures rest == [] ==> EndsWith(s, w)
    ensures rest != [] ==> EndsWith(s, rest) && rest[|rest| - 1] == s[|s| - 1]
  {
    var a := LeadingCount(s, IsJsSpace);
    var t := s[a..];
    assert t != [];
    var n := LeadingCount(t, NotJsSpace);
    w, rest := t[..n], t[n..];
    assert Words(s) == [w] + Words(rest);
    SliceOfSlice(s, a, n);
  }

  lemma SliceOfSlice(s: string, a: nat, n: nat)
    requires a + n <= |s|
    ensures s[a..][n..] == s[a + n..] && s[a..][..n] == s[a..a + n]
    ensures a + n == |s| ==> EndsWith(s, s[a..][..n])
    ensures a + n < |s| ==> EndsWith(s, s[a..][n..])
  {
  }

  lemma SuffixOfSuffix(s: string, t: string, u: string)
    requires EndsWith(s, t) && EndsWith(t, u)
    ensures EndsWith(s, u)
  {
    assert s[|s| - |u|..] == s[|s| - |t|..][|t| - |u|..];
  }

  /** The token being typed ends the line, so the line is head + current. */
  lemma CurrentIsSuffix(line: string)
    ensures EndsWith(line, CurrentPrefix(SplitTokens(line)))
  {
    var tokens := SplitTokens(line);
    var t := Trim(line);
    if !EndsWithSpace(line) && t != [] {
      TrimmedEnd(line);
      LastWordIsSuffix(t);
      assert tokens == Words(t);
      SuffixOfSuffix(line, t, tokens[|tokens| - 1]);
    }
  }

  /** A line that ends in a non-space character ends with its trimmed form. */
  lemma TrimmedEnd(line: string)
    requires line != [] && !IsJsSpace(line[|line| - 1]) && Trim(line) != []
    ensures EndsWith(line, Trim(line)) && !IsJsSpace(Trim(line)[|Trim(line)| - 1])
  {
    var a := LeadingCount(line, IsJsSpace);
    var rest := line[a..];
    assert rest != [] && rest[|rest| - 1] == line[|line| - 1];
    assert TrailingCount(rest, IsJsSpace) == 0;
    assert Trim(line) == rest;
  }

  /** `needsSpace`: a non-empty suggestion that does not already end in a space gets one. */
  function Pad(s: string): string
  {
    if s != [] && s[|s| - 1] != ' ' then " " else ""
  }

  function FullLines(head: string, suggestions: seq<string>): (r: seq<string>)
    ensures |r| == |suggestions|
    ensures forall i :: 0 <= i < |r| ==> r[i] == head + suggestions[i] + Pad(suggestions[i])
  {
    if suggestions == [] then [] else [head + suggestions[0] + Pad(suggestions[0])] + FullLines(head, suggestions[1..])
  }

  /** Suggestions that start with the current token give full lines that start with the typed line. */
  lemma FullLinesExtend(head: string, current: string, line: string, suggestions: seq<string>)
    requires head + current == line
    requires forall s :: s in suggestions ==> StartsWith(s, current)
    ensures forall i :: 0 <= i < |suggestions| ==> StartsWith(FullLines(head, suggestions)[i], line)
  {
    var full := FullLines(head, suggestions);
    forall i | 0 <= i < |suggestions| ensures StartsWith(full[i], line) {
      var s := suggestions[i];
      assert s in suggestions;
      assert full[i] == head + s + Pad(s);
      assert full[i][..|line|] == head + s[..|current|];
    }
  }

  /** What comes before the token being typed: the line without it. */
  function LineHead(line: string): (head: string)
    ensures head + CurrentPrefix(SplitTokens(line)) == line
  {
    var current := CurrentPrefix(SplitTokens(line));
    CurrentIsSuffix(line);
    HeadOfSuffix(line, current);
    line[..|line| - |current|]
  }

  lemma HeadOfSuffix(line: string, current: string)
    requires EndsWith(line, current)
    ensures line[..|line| - |current|] + current == line
  {
  }

  /**
   * The completer: [fullLineSuggestions, line]. Every full line extends the
   * typed line, since every suggestion starts with the token being typed.
   */
  function Complete(root: Node, ctx: Context, line: string): (r: (seq<string>, string))
    ensures r.1 == line
    ensures |r.0| == |Traverse(root, SplitTokens(line), ctx)|
    ensures forall i :: 0 <= i < |r.0| ==> StartsWith(r.0[i], line)
  {
    var tokens := SplitTokens(line);
    var suggestions := Traverse(root, tokens, ctx);
    var head := LineHead(line);
    FullLinesExtend(head, CurrentPrefix(tokens), line, suggestions);
    (FullLines(head, suggestions), line)
  }

  /** makeCliCompleter({ getContext }): the completer over the command tree. */
  function Completer(ctx: Context, line: string): (seq<string>, string)
  {
    Complete(CommandTree, ctx, line)
  }
}
