/** Config documents and the WinKit merge of src/cli.rs. */
module Documents {
  import opened Wrappers

  datatype Value =
    | Obj(fields: map<string, Value>)
    | Arr(items: seq<Value>)
    | Str(text: string)
    | Num(number: int)
    | Bool(flag: bool)
    | Null

  datatype Target = Opencode | ClaudeCode | Codex | Cursor | Windsurf | GeminiCli | Zed | Cline | RooCode | Continue

  datatype MergeOutcome = Merged | AlreadyPresent

  datatype MergeError = Unparseable | RootNotObject | SectionWrongType

  // ---------------------------------------------------------------------------------------------
  // The entry.

  function LaunchArgs(): Value { Arr([Str("--yes"), Str("@winkit/mcp@latest")]) }

  function WinkitEntry(target: Target): Value {
    match target
    case Opencode =>
      Obj(map["type" := Str("local"), "command" := Arr([Str("npx"), Str("--yes"), Str("@winkit/mcp@latest")]),
              "enabled" := Bool(true)])
    case Continue => Obj(map["name" := Str("winkit"), "command" := Str("npx"), "args" := LaunchArgs()])
    case _ => Obj(map["command" := Str("npx"), "args" := LaunchArgs()])
  }

  /** The top-level key the entry goes under. */
  function Section(target: Target): string {
    match target
    case Opencode => "mcp"
    case Zed => "context_servers"
    case Codex => "mcp_servers"
    case _ => "mcpServers"
  }

  predicate NamesWinkit(item: Value) {
    item.Obj? && "name" in item.fields && item.fields["name"] == Str("winkit")
  }

  predicate HasWinkit(items: seq<Value>) { exists i :: 0 <= i < |items| && NamesWinkit(items[i]) }

  // ---------------------------------------------------------------------------------------------
  // Merging, as functions of the document.

  function MergedObject(root: Value, section: string, name: string, entry: Value): (Value, Result<MergeOutcome,
      MergeError>) {
    if !root.Obj? then (root, Err(RootNotObject))
    else if section in root.fields && !root.fields[section].Obj? then (root, Err(SectionWrongType))
    else
      var inner := if section in root.fields then root.fields[section].fields else map[];
      if name in inner then (root, Ok(AlreadyPresent))
      else (Obj(root.fields[section := Obj(inner[name := entry])]), Ok(Merged))
  }

  function MergedArray(root: Value, section: string, entry: Value): (Value, Result<MergeOutcome, MergeError>) {
    if !root.Obj? then (root, Err(RootNotObject))
    else if section in root.fields && !root.fields[section].Arr? then (root, Err(SectionWrongType))
    else
      var items := if section in root.fields then root.fields[section].items else [];
      if HasWinkit(items) then (root, Ok(AlreadyPresent))
      else (Obj(root.fields[section := Arr(items + [entry])]), Ok(Merged))
  }

  function MergedTarget(root: Value, target: Target): (Value, Result<MergeOutcome, MergeError>) {
    if target == Continue then MergedArray(root, Section(target), WinkitEntry(target))
    else MergedObject(root, Section(target), "winkit", WinkitEntry(target))
  }

  // ---------------------------------------------------------------------------------------------
  // Merging in place.

  class Document {
    var root: Value

    constructor (root: Value)
      ensures this.root == root
    {
      this.root := root;
    }

    method MergeJsonObject(section: string, name: string, entry: Value) returns (r: Result<MergeOutcome, MergeError>)
      modifies this
      ensures (root, r) == MergedObject(old(root), section, name, entry)
    {
      if !root.Obj? {
        return Err(RootNotObject);
      }
      if section in root.fields {
        if !root.fields[section].Obj? {
          return Err(SectionWrongType);
        }
      } else {
        root := Obj(root.fields[section := Obj(map[])]);
      }
      var inner := root.fields[section].fields;
      if name in inner {
        return Ok(AlreadyPresent);
      }
      assert root.fields[section := Obj(inner[name := entry])]
        == old(root).fields[section := Obj(inner[name := entry])];
      root := Obj(root.fields[section := Obj(inner[name := entry])]);
      return Ok(Merged);
    }

    method MergeJsonArray(section: string, entry: Value) returns (r: Result<MergeOutcome, MergeError>)
      modifies this
      ensures (root, r) == MergedArray(old(root), section, entry)
    {
      if !root.Obj? {
        return Err(RootNotObject);
      }
      if section in root.fields {
        if !root.fields[section].Arr? {
          return Err(SectionWrongType);
        }
      } else {
        root := Obj(root.fields[section := Arr([])]);
      }
      var items := root.fields[section].items;
      if HasWinkit(items) {
        assert section in old(root).fields by { assert !HasWinkit([]); }
        return Ok(AlreadyPresent);
      }
      assert root.fields[section := Arr(items + [entry])] == old(root).fields[section := Arr(items + [entry])];
      root := Obj(root.fields[section := Arr(items + [entry])]);
      return Ok(Merged);
    }

    method MergeTarget(target: Target) returns (r: Result<MergeOutcome, MergeError>)
      modifies this
      ensures (root, r) == MergedTarget(old(root), target)
    {
      if target == Continue {
        r := MergeJsonArray(Section(target), WinkitEntry(target));
      } else {
        r := MergeJsonObject(Section(target), "winkit", WinkitEntry(target));
      }
    }
  }

  // ---------------------------------------------------------------------------------------------
  // What merging conserves.

  /** The value at a path of object keys. */
  function At(v: Value, path: seq<string>): Option<Value>
    decreases |path|
  {
    if path == [] then Some(v)
    else if v.Obj? && path[0] in v.fields then At(v.fields[path[0]], path[1..])
    else None
  }

  /** Nothing but the one entry differs: every other path leads where it led before. */
  ghost predicate AddsOnly(before: Value, after: Value, section: string, name: string, entry: Value) {
    && At(before, [section, name]) == None && At(after, [section, name]) == Some(entry)
    && forall path :: path != [] && path != [section] && !([section, name] <= path) ==>
      At(after, path) == At(before, path)
  }

  lemma PrefixOfTwo(path: seq<string>, a: string, b: string)
    requires |path| > 1
    ensures [a, b] <= path <==> path[0] == a && path[1] == b
  {
  }

  lemma AtOne(v: Value, a: string)
    ensures At(v, [a]) == if v.Obj? && a in v.fields then Some(v.fields[a]) else None
  {
    assert [a][1..] == [];
  }

  lemma AtTwo(v: Value, a: string, b: string)
    ensures At(v, [a]) == if v.Obj? && a in v.fields then Some(v.fields[a]) else None
    ensures At(v, [a, b]) == if At(v, [a]).Some? && At(v, [a]).value.Obj? && b in At(v, [a]).value.fields
                             then Some(At(v, [a]).value.fields[b]) else None
  {
    AtOne(v, a);
    assert [a, b][1..] == [b];
    if v.Obj? && a in v.fields {
      AtOne(v.fields[a], b);
    }
  }

  lemma MergeObjectConserves(root: Value, section: string, name: string, entry: Value)
    ensures var (after, r) := MergedObject(root, section, name, entry);
            && (r.Err? <==> !root.Obj? || (At(root, [section]).Some? && !At(root, [section]).value.Obj?))
            && (r == Ok(AlreadyPresent) <==> At(root, [section, name]).Some?)
            && (r == Ok(Merged) ==> after.Obj? && AddsOnly(root, after, section, name, entry))
            && (r != Ok(Merged) ==> after == root)
  {
    var (after, r) := MergedObject(root, section, name, entry);
    AtTwo(root, section, name);
    AtTwo(after, section, name);
    if r == Ok(Merged) {
      var inner := if section in root.fields then root.fields[section].fields else map[];
      forall path | path != [] && path != [section] && !([section, name] <= path)
        ensures At(after, path) == At(root, path)
      {
        if path[0] == section {
          assert |path| > 1 && path[1..][0] == path[1];
          PrefixOfTwo(path, section, name);
          assert At(Obj(inner[name := entry]), path[1..]) == At(Obj(inner), path[1..]);
        }
      }
    }
  }

  function ItemsAt(v: Value, section: string): seq<Value> {
    match At(v, [section])
    case Some(Arr(items)) => items
    case _ => []
  }

  lemma MergeArrayConserves(root: Value, section: string, entry: Value)
    ensures var (after, r) := MergedArray(root, section, entry);
            && (r.Err? <==> !root.Obj? || (At(root, [section]).Some? && !At(root, [section]).value.Arr?))
            && (r == Ok(AlreadyPresent) <==> HasWinkit(ItemsAt(root, section)))
            && (r == Ok(Merged) ==>
                 && after.Obj?
                 && At(after, [section]) == Some(Arr(ItemsAt(root, section) + [entry]))
                 && forall path :: path != [] && path[0] != section ==> At(after, path) == At(root, path))
            && (r != Ok(Merged) ==> after == root)
  {
    AtOne(root, section);
    AtOne(MergedArray(root, section, entry).0, section);
  }

  lemma MergeObjectTwice(root: Value, section: string, name: string, entry: Value)
    requires MergedObject(root, section, name, entry).1.Ok?
    ensures var after := MergedObject(root, section, name, entry).0;
            MergedObject(after, section, name, entry) == (after, Ok(AlreadyPresent))
  {
  }

  lemma MergeArrayTwice(root: Value, section: string, entry: Value)
    requires MergedArray(root, section, entry).1.Ok? && NamesWinkit(entry)
    ensures var after := MergedArray(root, section, entry).0;
            MergedArray(after, section, entry) == (after, Ok(AlreadyPresent))
  {
    if MergedArray(root, section, entry).1 == Ok(Merged) {
      var items := MergedArray(root, section, entry).0.fields[section].items;
      assert NamesWinkit(items[|items| - 1]);
    }
  }

  /** Merging again finds the entry and changes nothing. */
  lemma MergeIsIdempotent(root: Value, target: Target)
    requires MergedTarget(root, target).1.Ok?
    ensures var after := MergedTarget(root, target).0;
            MergedTarget(after, target) == (after, Ok(AlreadyPresent))
  {
    if target == Continue {
      MergeArrayTwice(root, Section(target), WinkitEntry(target));
    } else {
      MergeObjectTwice(root, Section(target), "winkit", WinkitEntry(target));
    }
  }

  // ---------------------------------------------------------------------------------------------
  // Files: a document in one of the two formats, blank, or something no parser accepts.

  datatype Content = Json(value: Value) | Toml(table: map<string, Value>) | Blank | Raw(bytes: string)

  function ParsedRoot(target: Target, existing: Option<Content>): Option<Value> {
    if existing.None? || existing.value.Blank? then Some(Obj(map[]))
    else if target == Codex then (if existing.value.Toml? then Some(Obj(existing.value.table)) else None)
    else (if existing.value.Json? then Some(existing.value.value) else None)
  }

  function Rendered(target: Target, root: Value): Content
    requires root.Obj?
  {
    if target == Codex then Toml(root.fields) else Json(root)
  }

  function ParseAndMerge(target: Target, existing: Option<Content>): Result<Option<Content>, MergeError> {
    match ParsedRoot(target, existing)
    case None => Err(Unparseable)
    case Some(root) =>
      match MergedTarget(root, target)
      case (_, Err(e)) => Err(e)
      case (_, Ok(AlreadyPresent)) => Ok(None)
      case (after, Ok(Merged)) => Ok(Some(Rendered(target, after)))
  }

  /** The text a merge produces is one in which the entry is already registered. */
  lemma MergedTextIsRegistered(target: Target, existing: Option<Content>)
    requires ParseAndMerge(target, existing).Ok? && ParseAndMerge(target, existing).value.Some?
    ensures ParseAndMerge(target, ParseAndMerge(target, existing).value) == Ok(None)
  {
    var root := ParsedRoot(target, existing).value;
    MergeIsIdempotent(root, target);
    var after := MergedTarget(root, target).0;
    assert ParsedRoot(target, Some(Rendered(target, after))) == Some(after);
  }

  /** What merging does to a document: the entry is added under the target's section, and nothing else differs. */
  ghost predicate AddsEntry(target: Target, before: Value, after: Value) {
    if target == Continue then
      && At(after, [Section(target)]) == Some(Arr(ItemsAt(before, Section(target)) + [WinkitEntry(target)]))
      && forall path :: path != [] && path[0] != Section(target) ==> At(after, path) == At(before, path)
    else AddsOnly(before, after, Section(target), "winkit", WinkitEntry(target))
  }

  /** Read back, the text a merge produces is the document it was given and the entry. */
  lemma MergedTextConserves(target: Target, existing: Option<Content>)
    requires ParseAndMerge(target, existing).Ok? && ParseAndMerge(target, existing).value.Some?
    ensures var before, after := ParsedRoot(target, existing),
              ParsedRoot(target, ParseAndMerge(target, existing).value);
            before.Some? && after.Some? && AddsEntry(target, before.value, after.value)
  {
    var root := ParsedRoot(target, existing).value;
    var after := MergedTarget(root, target).0;
    MergeObjectConserves(root, Section(target), "winkit", WinkitEntry(target));
    MergeArrayConserves(root, Section(target), WinkitEntry(target));
    assert ParsedRoot(target, Some(Rendered(target, after))) == Some(after);
  }
}
