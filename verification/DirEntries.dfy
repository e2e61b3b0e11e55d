/** Lists of directory entries, as the FFS and the very simple file system keep them. */
module DirEntries {
  import opened Sequences

  datatype Entry = Entry(name: string, inum: int)

  ghost predicate HasName(es: seq<Entry>, name: string) {
    exists i :: 0 <= i < |es| && es[i].name == name
  }

  lemma NameAt(es: seq<Entry>, i: int)
    requires 0 <= i < |es|
    ensures HasName(es, es[i].name)
  {
  }

  lemma NameAppended(es: seq<Entry>, e: Entry, name: string)
    ensures HasName(es + [e], name) <==> HasName(es, name) || e.name == name
  {
    if HasName(es, name) {
      var i :| 0 <= i < |es| && es[i].name == name;
      assert (es + [e])[i].name == name;
    }
    if e.name == name { assert (es + [e])[|es|].name == name; }
  }

  lemma NameWithout(es: seq<Entry>, i: int, name: string)
    requires 0 <= i < |es| && forall k, j :: 0 <= k < j < |es| ==> es[k].name != es[j].name
    ensures HasName(Without(es, i), name) <==> HasName(es, name) && name != es[i].name
  {
    var r := Without(es, i);
    WithoutAt(es, i);
    if HasName(es, name) && name != es[i].name {
      var k :| 0 <= k < |es| && es[k].name == name;
      assert r[if k < i then k else k - 1].name == name;
    }
  }

  /** The index of the entry of the given name, the first if there are several, or -1. */
  method FindEntry(es: seq<Entry>, name: string) returns (index: int)
    ensures -1 <= index < |es| && (index == -1 <==> !HasName(es, name))
    ensures index >= 0 ==> es[index].name == name && forall j :: 0 <= j < index ==> es[j].name != name
  {
    index := -1;
    for i := 0 to |es|
      invariant index == -1 && forall j :: 0 <= j < i ==> es[j].name != name
    {
      if es[i].name == name {
        NameAt(es, i);
        return i;
      }
    }
  }
}
