/**
  Command lines to JSON and back.
*/
module CommandJson {
  import opened Paths
  import opened Values
  import opened ValueJson

  /** What a command is made of; a path may carry the name of a share. */
  datatype Component =
    | Word(text: string) | Content(key: string, content: string) | Parameters | PathRef(key: string) | File(path: Path)

  type Command = seq<Component>

  // ---------------------------------------------------------------- writing

  function ShownPath(p: Path): string { if p.share == "" then p.path else p.share + ":" + p.path }

  function ComponentToJson(c: Component): Json {
    match c
    case Word(t) => JText(t)
    case Content(k, t) =>
      JObject(JInsert(JInsert(JInsert(JEnd, "type", JText("content")), "key", JText(k)), "content", JText(t)))
    case Parameters => JObject(JInsert(JEnd, "type", JText("parameters")))
    case PathRef(k) => JObject(JInsert(JEnd, "pathref", JText(k)))
    case File(p) => JObject(JInsert(JEnd, "path", JText(ShownPath(p))))
  }

  function CommandToJson(c: Command): JElems
    decreases |c|
  {
    if c == [] then JNil else JCons(ComponentToJson(c[0]), CommandToJson(c[1..]))
  }

  function CommandsToJson(cs: seq<Command>): JElems
    decreases |cs|
  {
    if cs == [] then JNil else JCons(JArray(CommandToJson(cs[0])), CommandsToJson(cs[1..]))
  }

  /** A single command is written without the outer array. */
  function LineToJson(cs: seq<Command>): Json {
    JArray(if |cs| == 1 then CommandToJson(cs[0]) else CommandsToJson(cs))
  }

  // ---------------------------------------------------------------- reading

  function TextField(fs: JFields, key: string): Option<string> {
    match JLookup(fs, key)
    case Some(JText(t)) => Some(t)
    case _ => None
  }

  /** None: an exception, or a failed assertion of the JSON library. */
  function LoadComponent(j: Json): Option<Component> {
    match j
    case JText(t) => Some(Word(t))
    case JObject(fs) =>
      if JLookup(fs, "type").Some? && TextField(fs, "type").None? then None
      else
        var t := if JLookup(fs, "type").None? then "" else TextField(fs, "type").value;
        if t == "content" then
          if TextField(fs, "key").None? || TextField(fs, "content").None? then None
          else Some(Content(TextField(fs, "key").value, TextField(fs, "content").value))
        else if t == "parameters" then Some(Parameters)
        else if t == "path" || (t == "" && JLookup(fs, "path").Some?) then
          if TextField(fs, "path").None? then None else Some(File(Path("", TextField(fs, "path").value)))
        else if t == "pathref" || (t == "" && JLookup(fs, "pathref").Some?) then
          if TextField(fs, "pathref").None? then None else Some(PathRef(TextField(fs, "pathref").value))
        else None
    case _ => None
  }

  function LoadCommand(js: JElems): Option<Command> {
    match js
    case JNil => Some([])
    case JCons(j, tail) =>
      var (c, cs) := (LoadComponent(j), LoadCommand(tail));
      if c.None? || cs.None? then None else Some([c.value] + cs.value)
  }

  /** The components before the first one that cannot be read. */
  function ReadablePrefix(js: JElems): seq<Component> {
    match js
    case JNil => []
    case JCons(j, tail) =>
      var c := LoadComponent(j);
      if c.None? then [] else [c.value] + ReadablePrefix(tail)
  }

  function JLength(js: JElems): nat { if js.JNil? then 0 else 1 + JLength(js.tail) }

  /** All of them if and only if the whole command can be read. */
  lemma {:induction false} PrefixIsAllIff(js: JElems)
    ensures LoadCommand(js).Some? <==> |ReadablePrefix(js)| == JLength(js)
    ensures |ReadablePrefix(js)| <= JLength(js)
    ensures LoadCommand(js).Some? ==> LoadCommand(js).value == ReadablePrefix(js)
  {
    if js.JCons? { PrefixIsAllIff(js.tail); }
  }

  function LoadCommands(js: JElems): Option<seq<Command>> {
    match js
    case JNil => Some([])
    case JCons(j, tail) =>
      var (c, cs) := (if j.JArray? then LoadCommand(j.elems) else None, LoadCommands(tail));
      if c.None? || cs.None? then None else Some([c.value] + cs.value)
  }

  /** An array that does not start with an array is one command. */
  function LoadLine(j: Json): Option<seq<Command>> {
    if !j.JArray? then None
    else if j.elems.JCons? && !j.elems.head.JArray? then
      var c := LoadCommand(j.elems);
      if c.None? then None else Some([c.value])
    else LoadCommands(j.elems)
  }

  // ---------------------------------------------------------------- the round trip

  predicate Local(c: Component) { c.File? ==> c.path.share == "" }

  lemma KeyOrder()
    ensures Less("key", "type") && !Less("type", "key") && Less("content", "key") && !Less("key", "content")
  {
    LessIsTotal("key", "type");
    LessIsTotal("content", "key");
  }

  lemma OneField(k: string, t: string, key: string)
    ensures JLookup(JInsert(JEnd, k, JText(t)), key) == if key == k then Some(JText(t)) else None
  {
    assert JLookup(JEnd, key) == None;
  }

  lemma KeysDiffer()
    ensures "type" != "path" && "type" != "pathref" && "path" != "pathref"
  {
    assert "type"[0] == 't' && "path"[0] == 'p';
    assert |"type"| == 4 && |"path"| == 4 && |"pathref"| == 7;
  }

  lemma ContentIsRead(k: string, t: string)
    ensures LoadComponent(ComponentToJson(Content(k, t))) == Some(Content(k, t))
  {
    KeyOrder();
    var fs := JField("content", JText(t), JField("key", JText(k), JField("type", JText("content"), JEnd)));
    assert ComponentToJson(Content(k, t)) == JObject(fs);
    var rest := JField("key", JText(k), JField("type", JText("content"), JEnd));
    assert JLookup(fs, "type") == JLookup(rest, "type") == Some(JText("content"));
    assert JLookup(fs, "key") == JLookup(rest, "key");
  }

  /** What a written component is read as. */
  function ReadBack(c: Component): Component { if c.File? then File(Path("", ShownPath(c.path))) else c }

  lemma ComponentIsRead(c: Component)
    ensures LoadComponent(ComponentToJson(c)) == Some(ReadBack(c)) && !ComponentToJson(c).JArray?
  {
    match c
    case Word(_) =>
    case Content(k, t) => ContentIsRead(k, t);
    case Parameters => OneField("type", "parameters", "type");
    case PathRef(k) =>
      KeysDiffer();
      OneField("pathref", k, "type");
      OneField("pathref", k, "path");
      OneField("pathref", k, "pathref");
    case File(p) =>
      KeysDiffer();
      OneField("path", ShownPath(p), "type");
      OneField("path", ShownPath(p), "path");
  }

  /** A component comes back unless it is a path on a share, which is read as a local path of that text. */
  lemma ComponentComesBack(c: Component)
    ensures LoadComponent(ComponentToJson(c)) == Some(c) <==> Local(c)
  {
    ComponentIsRead(c);
  }

  lemma {:induction false} CommandComesBack(c: Command)
    ensures LoadCommand(CommandToJson(c)).Some? && |LoadCommand(CommandToJson(c)).value| == |c|
    ensures LoadCommand(CommandToJson(c)) == Some(c) <==> forall i :: 0 <= i < |c| ==> Local(c[i])
    decreases |c|
  {
    if c != [] {
      ComponentIsRead(c[0]);
      ComponentComesBack(c[0]);
      CommandComesBack(c[1..]);
      var x, xs := LoadComponent(ComponentToJson(c[0])).value, LoadCommand(CommandToJson(c[1..])).value;
      assert c == [c[0]] + c[1..];
      assert ([x] + xs)[0] == x && ([x] + xs)[1..] == xs;
      assert forall i :: 0 <= i < |c[1..]| ==> c[1..][i] == c[i + 1];
      if forall i :: 0 <= i < |c[1..]| ==> Local(c[1..][i]) {
        forall i | 1 <= i < |c| ensures Local(c[i]) { assert c[i] == c[1..][i - 1]; }
      }
    }
  }

  predicate AllLocal(cs: seq<Command>) { forall i, k :: 0 <= i < |cs| && 0 <= k < |cs[i]| ==> Local(cs[i][k]) }

  lemma {:induction false} CommandsComeBack(cs: seq<Command>)
    ensures LoadCommands(CommandsToJson(cs)).Some? && |LoadCommands(CommandsToJson(cs)).value| == |cs|
    ensures LoadCommands(CommandsToJson(cs)) == Some(cs) <==> AllLocal(cs)
    decreases |cs|
  {
    if cs != [] {
      CommandComesBack(cs[0]);
      CommandsComeBack(cs[1..]);
      var x, xs := LoadCommand(CommandToJson(cs[0])).value, LoadCommands(CommandsToJson(cs[1..])).value;
      assert cs == [cs[0]] + cs[1..];
      assert ([x] + xs)[0] == x && ([x] + xs)[1..] == xs;
      assert forall i :: 0 <= i < |cs[1..]| ==> cs[1..][i] == cs[i + 1];
      if AllLocal(cs[1..]) {
        forall i, k | 1 <= i < |cs| && 0 <= k < |cs[i]| ensures Local(cs[i][k]) { assert cs[i] == cs[1..][i - 1]; }
      }
      if AllLocal(cs) {
        forall i, k | 0 <= i < |cs[1..]| && 0 <= k < |cs[1..][i]| ensures Local(cs[1..][i][k]) {
          assert cs[1..][i] == cs[i + 1];
        }
        forall k | 0 <= k < |cs[0]| ensures Local(cs[0][k]) {}
      }
    }
  }

  /** A command line comes back if and only if its paths are local and it is not one single empty command. */
  lemma LineComesBack(cs: seq<Command>)
    ensures LoadLine(LineToJson(cs)) == Some(cs) <==> AllLocal(cs) && cs != [[]]
  {
    if |cs| == 1 {
      CommandComesBack(cs[0]);
      assert cs == [cs[0]];
      if cs[0] != [] {
        ComponentIsRead(cs[0][0]);
        assert LoadLine(LineToJson(cs)) == Some([LoadCommand(CommandToJson(cs[0])).value]);
        assert AllLocal(cs) <==> forall k :: 0 <= k < |cs[0]| ==> Local(cs[0][k]);
      } else {
        assert LoadLine(LineToJson(cs)) == Some([]);
      }
    } else {
      CommandsComeBack(cs);
    }
  }

  // ---------------------------------------------------------------- loading in place

  class CommandObject {
    var components: seq<Component>

    constructor ()
      ensures components == []
    {
      components := [];
    }

    /** Appends the components one by one; those before the one that cannot be read stay. */
    method Load(js: JElems) returns (ok: bool)
      modifies this
      ensures ok == LoadCommand(js).Some?
      ensures components == old(components) + ReadablePrefix(js)
      ensures ok ==> components == old(components) + LoadCommand(js).value
    {
      PrefixIsAllIff(js);
      var rest := js;
      ok := true;
      while rest.JCons?
        invariant LoadCommand(js).Some? <==> LoadCommand(rest).Some?
        invariant components + ReadablePrefix(rest) == old(components) + ReadablePrefix(js)
        decreases rest
      {
        var c := LoadComponent(rest.head);
        if c.None? { return false; }
        components := components + [c.value];
        rest := rest.tail;
      }
    }
  }
}
