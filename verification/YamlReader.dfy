/** The recursive builder as the program runs it, adding to a settings node in place. */
module YamlReader {
  import opened SettingsTree
  import opened SettingsNodes
  import opened YamlWrapper

  /** The number of entries or items; anything else is empty. */
  function Count(y: Yaml): nat {
    match y
    case Null => 0
    case Scalar(_) => 0
    case Map(entries) => |entries|
    case Sequence(items) => |items|
  }

  /** `getTree`: an empty document is refused and leaves the settings alone. */
  method GetTree(root: Yaml, settings: SettingsNode) returns (ok: bool)
    requires settings.Valid()
    modifies settings.Repr()
    ensures settings.Valid() && fresh(settings.Repr() - old(settings.Repr()))
    ensures Count(root) == 0 ==> !ok && settings.Tree() == old(settings.Tree())
    ensures Count(root) > 0 ==> Built(ok, settings.Tree()) == Build(root, old(settings.Tree()), [])
    ensures (root.Map? && root.entries != []) || (root.Sequence? && root.items != []) ==>
              Built(ok, settings.Tree()) == Build(root, old(settings.Tree()), [])
    ensures root.Null? || root.Scalar? || root == Map([]) || root == Sequence([]) ==>
              !ok && settings.Tree() == old(settings.Tree())
  {
    if Count(root) == 0 {
      return false;
    }
    ok := GetSubTree(root, settings, []);
  }

  method GetSubTree(node: Yaml, settings: SettingsNode, keys: Path) returns (ok: bool)
    requires settings.Valid()
    modifies settings.Repr()
    ensures settings.Valid() && fresh(settings.Repr() - old(settings.Repr()))
    ensures Built(ok, settings.Tree()) == Build(node, old(settings.Tree()), keys)
    ensures node.Null? ==> ok && settings.Tree() == old(settings.Tree())
    ensures node.Scalar? ==> ok && settings.Tree() == AddAt(old(settings.Tree()), keys, [node.text])
    ensures node.Map? && node.entries != [] && node.entries[0].key.None? ==>
              !ok && settings.Tree() == old(settings.Tree())
    decreases node
  {
    match node
    case Null =>
      ok := true;
    case Scalar(text) =>
      settings.AddAt(keys, [text]);
      ok := true;
    case Map(entries) =>
      ok := AddEntries(entries, settings, keys);
    case Sequence(items) =>
      ok := AddItems(items, settings, keys);
  }

  method AddEntries(entries: seq<Entry>, settings: SettingsNode, keys: Path) returns (ok: bool)
    requires settings.Valid()
    modifies settings.Repr()
    ensures settings.Valid() && fresh(settings.Repr() - old(settings.Repr()))
    ensures Built(ok, settings.Tree()) == BuildEntries(entries, old(settings.Tree()), keys)
    decreases entries
  {
    hide SettingsTree.AddAt, Build, Tidy, Holds, Abs;
    ghost var goal := BuildEntries(entries, settings.Tree(), keys);
    for i := 0 to |entries|
      invariant settings.Valid() && fresh(settings.Repr() - old(settings.Repr()))
      invariant BuildEntries(entries[i..], settings.Tree(), keys) == goal
    {
      assert entries[i..][1..] == entries[i + 1..] && entries[i..][0] == entries[i];
      if entries[i].key.None? {
        return false;
      }
      var key := entries[i].key.value;
      settings.AddAt(keys, [key]);
      assert entries decreases to entries[i];
      var added := GetSubTree(entries[i].value, settings, keys + [key]);
      if !added {
        return false;
      }
    }
    ok := true;
  }

  method AddItems(items: seq<Yaml>, settings: SettingsNode, keys: Path) returns (ok: bool)
    requires settings.Valid()
    modifies settings.Repr()
    ensures settings.Valid() && fresh(settings.Repr() - old(settings.Repr()))
    ensures Built(ok, settings.Tree()) == BuildItems(items, old(settings.Tree()), keys)
    decreases items
  {
    hide Build, Tidy, Holds, Abs;
    ghost var goal := BuildItems(items, settings.Tree(), keys);
    for i := 0 to |items|
      invariant settings.Valid() && fresh(settings.Repr() - old(settings.Repr()))
      invariant BuildItems(items[i..], settings.Tree(), keys) == goal
    {
      assert items[i..][1..] == items[i + 1..] && items[i..][0] == items[i];
      var added := GetSubTree(items[i], settings, keys);
      if !added {
        return false;
      }
    }
    ok := true;
  }
}
