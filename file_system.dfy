/**
 * The part of the file system the crawler and the web controller share: directories of
 * named files, listed the way `ioutil.ReadDir` lists them (sorted by name), and the
 * `filepath.Join` of two clean path elements.
 */
module FileSystem {
  import opened Wrappers

  type Bytes = seq<bv8>

  /**
   * Go's `<` on strings, which compares bytes. UTF-8 keeps the order of code points, so
   * comparing characters one by one gives the same order.
   */
  predicate Below(a: string, b: string)
    decreases |a|
  {
    if |a| == 0 then |b| > 0
    else if |b| == 0 then false
    else a[0] < b[0] || (a[0] == b[0] && Below(a[1..], b[1..]))
  }

  lemma {:induction false} BelowIrreflexive(a: string)
    ensures !Below(a, a)
    decreases |a|
  {
    if |a| > 0 {
      BelowIrreflexive(a[1..]);
    }
  }

  lemma {:induction false} BelowTransitive(a: string, b: string, c: string)
    requires Below(a, b) && Below(b, c)
    ensures Below(a, c)
    decreases |a|
  {
    if |a| > 0 && a[0] == b[0] && b[0] == c[0] {
      BelowTransitive(a[1..], b[1..], c[1..]);
    }
  }

  lemma {:induction false} BelowTotal(a: string, b: string)
    ensures a == b || Below(a, b) || Below(b, a)
    decreases |a|
  {
    if |a| > 0 && |b| > 0 && a[0] == b[0] {
      BelowTotal(a[1..], b[1..]);
      if a[1..] == b[1..] {
        assert a == [a[0]] + a[1..] && b == [b[0]] + b[1..];
      }
    }
  }

  /** A directory entry: a file name and the file's contents. */
  datatype Entry = Entry(name: string, data: Bytes)

  /** The order `ioutil.ReadDir` lists a directory in: names strictly increasing. */
  predicate Sorted(es: seq<Entry>) {
    forall i, j :: 0 <= i < j < |es| ==> Below(es[i].name, es[j].name)
  }

  /** Every name of `es` comes after `x`. */
  predicate Above(x: string, es: seq<Entry>) {
    forall i :: 0 <= i < |es| ==> Below(x, es[i].name)
  }

  /** No entry of `es` is called `name`. */
  predicate Unnamed(es: seq<Entry>, name: string) {
    forall i :: 0 <= i < |es| ==> es[i].name != name
  }

  /** The names of a listing, in its order. */
  function Names(es: seq<Entry>): (names: seq<string>)
    ensures |names| == |es|
    ensures forall i :: 0 <= i < |es| ==> names[i] == es[i].name
  {
    seq(|es|, i requires 0 <= i < |es| => es[i].name)
  }

  /** The contents of the file called `name`, if the listing has one. */
  function Lookup(es: seq<Entry>, name: string): (r: Option<Bytes>)
    ensures r.None? <==> Unnamed(es, name)
    decreases |es|
  {
    if |es| == 0 then None
    else if es[0].name == name then Some(es[0].data)
    else Lookup(es[1..], name)
  }

  /**
   * What `ioutil.WriteFile` does to a directory: the file gets the new contents, in place
   * when it exists, otherwise at its position in name order.
   */
  function Put(es: seq<Entry>, name: string, data: Bytes): (r: seq<Entry>)
    decreases |es|
  {
    if |es| == 0 then [Entry(name, data)]
    else if es[0].name == name then [Entry(name, data)] + es[1..]
    else if Below(name, es[0].name) then [Entry(name, data)] + es
    else [es[0]] + Put(es[1..], name, data)
  }

  /** What `os.Remove` does to a directory: the entry called `name` goes. */
  function RemoveName(es: seq<Entry>, name: string): (r: seq<Entry>)
    decreases |es|
  {
    if |es| == 0 then []
    else if es[0].name == name then RemoveName(es[1..], name)
    else [es[0]] + RemoveName(es[1..], name)
  }

  /** After a write the file has the new contents and every other file is as it was. */
  lemma {:induction false} PutLookup(es: seq<Entry>, name: string, data: Bytes, other: string)
    ensures Lookup(Put(es, name, data), name) == Some(data)
    ensures other != name ==> Lookup(Put(es, name, data), other) == Lookup(es, other)
    decreases |es|
  {
    if |es| > 0 && es[0].name != name && !Below(name, es[0].name) {
      PutLookup(es[1..], name, data, other);
    }
  }

  /** After a removal the file is gone and every other file is as it was. */
  lemma {:induction false} RemoveLookup(es: seq<Entry>, name: string, other: string)
    ensures Lookup(RemoveName(es, name), name).None?
    ensures other != name ==> Lookup(RemoveName(es, name), other) == Lookup(es, other)
    decreases |es|
  {
    if |es| > 0 {
      RemoveLookup(es[1..], name, other);
    }
  }

  lemma SortedCons(e: Entry, es: seq<Entry>)
    ensures Sorted([e] + es) <==> Above(e.name, es) && Sorted(es)
  {
    var s := [e] + es;
    if Sorted(s) {
      forall i | 0 <= i < |es|
        ensures Below(e.name, es[i].name)
      {
        assert s[0] == e && s[i + 1] == es[i];
        assert Below(s[0].name, s[i + 1].name);
      }
      forall i, j | 0 <= i < j < |es|
        ensures Below(es[i].name, es[j].name)
      {
        assert s[i + 1] == es[i] && s[j + 1] == es[j];
      }
    }
    if Above(e.name, es) && Sorted(es) {
      forall i, j | 0 <= i < j < |s|
        ensures Below(s[i].name, s[j].name)
      {
        if i > 0 {
          assert s[i] == es[i - 1] && s[j] == es[j - 1];
        }
      }
    }
  }

  lemma SortedTail(es: seq<Entry>)
    requires |es| > 0 && Sorted(es)
    ensures Above(es[0].name, es[1..]) && Sorted(es[1..])
  {
    SortedCons(es[0], es[1..]);
    assert es == [es[0]] + es[1..];
  }

  lemma {:induction false} PutAbove(x: string, es: seq<Entry>, name: string, data: Bytes)
    requires Above(x, es) && Below(x, name)
    ensures Above(x, Put(es, name, data))
    decreases |es|
  {
    if |es| > 0 && es[0].name != name && !Below(name, es[0].name) {
      PutAbove(x, es[1..], name, data);
      var r := Put(es[1..], name, data);
      assert Put(es, name, data) == [es[0]] + r;
      assert forall i :: 0 <= i < |r| ==> ([es[0]] + r)[i + 1] == r[i];
    }
  }

  /** Looking a name up in two listings one after the other. */
  lemma {:induction false} LookupConcat(a: seq<Entry>, b: seq<Entry>, name: string)
    ensures Lookup(a + b, name) == if Lookup(a, name).Some? then Lookup(a, name) else Lookup(b, name)
    decreases |a|
  {
    if |a| == 0 {
      assert a + b == b;
    } else {
      assert (a + b)[0] == a[0] && (a + b)[1..] == a[1..] + b;
      LookupConcat(a[1..], b, name);
    }
  }

  /** Every name of `es` comes before `x`. */
  predicate Under(es: seq<Entry>, x: string) {
    forall i :: 0 <= i < |es| ==> Below(es[i].name, x)
  }

  lemma SortedSnoc(es: seq<Entry>, e: Entry)
    requires Sorted(es) && Under(es, e.name)
    ensures Sorted(es + [e])
  {
    var s := es + [e];
    forall i, j | 0 <= i < j < |s|
      ensures Below(s[i].name, s[j].name)
    {
      assert s[i] == es[i];
      if j < |es| {
        assert s[j] == es[j];
      }
    }
  }

  /** A write keeps the listing in name order. */
  lemma {:induction false} PutSorted(es: seq<Entry>, name: string, data: Bytes)
    requires Sorted(es)
    ensures Sorted(Put(es, name, data))
    decreases |es|
  {
    if |es| > 0 {
      var e := es[0];
      SortedTail(es);
      if e.name == name {
        SortedCons(Entry(name, data), es[1..]);
      } else if Below(name, e.name) {
        forall i | 0 <= i < |es|
          ensures Below(name, es[i].name)
        {
          if i > 0 {
            BelowTransitive(name, e.name, es[i].name);
          }
        }
        SortedCons(Entry(name, data), es);
      } else {
        BelowTotal(name, e.name);
        PutSorted(es[1..], name, data);
        PutAbove(e.name, es[1..], name, data);
        SortedCons(e, Put(es[1..], name, data));
      }
    }
  }

  lemma {:induction false} RemoveAbove(x: string, es: seq<Entry>, name: string)
    requires Above(x, es)
    ensures Above(x, RemoveName(es, name))
    decreases |es|
  {
    if |es| > 0 {
      RemoveAbove(x, es[1..], name);
      var r := RemoveName(es[1..], name);
      assert forall i :: 0 <= i < |r| ==> ([es[0]] + r)[i + 1] == r[i];
    }
  }

  /** A removal keeps the listing in name order. */
  lemma {:induction false} RemoveSorted(es: seq<Entry>, name: string)
    requires Sorted(es)
    ensures Sorted(RemoveName(es, name))
    decreases |es|
  {
    if |es| > 0 {
      SortedTail(es);
      RemoveSorted(es[1..], name);
      if es[0].name != name {
        RemoveAbove(es[0].name, es[1..], name);
        SortedCons(es[0], RemoveName(es[1..], name));
      }
    }
  }

  /** Removing a name the listing does not have changes nothing. */
  lemma {:induction false} RemoveAbsent(es: seq<Entry>, name: string)
    requires Unnamed(es, name)
    ensures RemoveName(es, name) == es
    decreases |es|
  {
    if |es| > 0 {
      RemoveAbsent(es[1..], name);
      assert es == [es[0]] + es[1..];
    }
  }

  /** Removal works piece by piece. */
  lemma {:induction false} RemoveConcat(a: seq<Entry>, b: seq<Entry>, name: string)
    ensures RemoveName(a + b, name) == RemoveName(a, name) + RemoveName(b, name)
    decreases |a|
  {
    if |a| > 0 {
      var ab := a + b;
      assert ab[0] == a[0] && ab[1..] == a[1..] + b;
      RemoveConcat(a[1..], b, name);
      if a[0].name == name {
        assert RemoveName(ab, name) == RemoveName(a[1..] + b, name);
      } else {
        assert RemoveName(ab, name) == [a[0]] + RemoveName(a[1..] + b, name);
        assert [a[0]] + (RemoveName(a[1..], name) + RemoveName(b, name))
          == ([a[0]] + RemoveName(a[1..], name)) + RemoveName(b, name);
      }
    } else {
      assert a + b == b;
    }
  }

  /** The entries of `es` whose names `gone` does not pick, in listing order. */
  function Without(es: seq<Entry>, gone: string -> bool): seq<Entry>
    decreases |es|
  {
    if |es| == 0 then []
    else
      var last := es[|es| - 1];
      Without(es[..|es| - 1], gone) + (if gone(last.name) then [] else [last])
  }

  /** A file is missing from the result exactly when `gone` picks its name. */
  lemma {:induction false} WithoutLookup(es: seq<Entry>, gone: string -> bool, name: string)
    ensures Lookup(Without(es, gone), name) == if gone(name) then None else Lookup(es, name)
    decreases |es|
  {
    if |es| > 0 {
      var init, last := es[..|es| - 1], es[|es| - 1];
      var tail := if gone(last.name) then [] else [last];
      WithoutLookup(init, gone, name);
      LookupConcat(Without(init, gone), tail, name);
      assert es == init + [last];
      LookupConcat(init, [last], name);
    }
  }

  lemma {:induction false} WithoutUnder(es: seq<Entry>, gone: string -> bool, x: string)
    requires Under(es, x)
    ensures Under(Without(es, gone), x)
    decreases |es|
  {
    if |es| > 0 {
      WithoutUnder(es[..|es| - 1], gone, x);
    }
  }

  /** Dropping entries keeps the listing in name order. */
  lemma {:induction false} WithoutSorted(es: seq<Entry>, gone: string -> bool)
    requires Sorted(es)
    ensures Sorted(Without(es, gone))
    decreases |es|
  {
    if |es| > 0 {
      var init, last := es[..|es| - 1], es[|es| - 1];
      WithoutSorted(init, gone);
      if !gone(last.name) {
        WithoutUnder(init, gone, last.name);
        SortedSnoc(Without(init, gone), last);
      }
    }
  }

  /** Dropping the same names a second time drops nothing more. */
  lemma {:induction false} WithoutIdempotent(es: seq<Entry>, gone: string -> bool)
    ensures Without(Without(es, gone), gone) == Without(es, gone)
    decreases |es|
  {
    if |es| > 0 {
      var init, last := es[..|es| - 1], es[|es| - 1];
      var k := Without(init, gone);
      WithoutIdempotent(init, gone);
      assert es == init + [last];
      if !gone(last.name) {
        var s := k + [last];
        assert Without(es, gone) == s;
        assert s[..|s| - 1] == k && s[|s| - 1] == last;
        assert Without(s, gone) == Without(k, gone) + [last];
      } else {
        assert Without(es, gone) == k + [] == k;
      }
    }
  }

  lemma WithoutStep(es: seq<Entry>, i: nat, gone: string -> bool)
    requires i < |es|
    ensures Without(es[..i + 1], gone) == Without(es[..i], gone) + (if gone(es[i].name) then [] else [es[i]])
  {
    assert es[..i + 1][..i] == es[..i];
  }

  /** Removing entry `i` of a sorted listing once the entries before it have been filtered. */
  lemma RemoveNext(es: seq<Entry>, i: nat, gone: string -> bool)
    requires Sorted(es) && i < |es|
    ensures RemoveName(Without(es[..i], gone) + es[i..], es[i].name) == Without(es[..i], gone) + es[i + 1..]
  {
    var name := es[i].name;
    var k := Without(es[..i], gone);
    BelowIrreflexive(name);
    assert Under(es[..i], name);
    WithoutUnder(es[..i], gone, name);
    RemoveAbsent(k, name);
    assert Above(name, es[i + 1..]);
    RemoveAbsent(es[i + 1..], name);
    assert es[i..] == [es[i]] + es[i + 1..];
    RemoveConcat(k, es[i..], name);
    RemoveConcat([es[i]], es[i + 1..], name);
    assert RemoveName([es[i]], name) == [];
  }

  /**
   * One step of filtering a sorted listing in place: entry `i` is removed when `gone`
   * picks it and kept otherwise.
   */
  lemma FilterStep(es: seq<Entry>, i: nat, gone: string -> bool)
    requires Sorted(es) && i < |es|
    ensures var current := Without(es[..i], gone) + es[i..];
      (if gone(es[i].name) then RemoveName(current, es[i].name) else current) ==
      Without(es[..i + 1], gone) + es[i + 1..]
  {
    var k := Without(es[..i], gone);
    WithoutStep(es, i, gone);
    if gone(es[i].name) {
      RemoveNext(es, i, gone);
      assert Without(es[..i + 1], gone) == k + [];
    } else {
      assert Without(es[..i + 1], gone) == k + [es[i]];
      assert es[i..] == [es[i]] + es[i + 1..];
      assert k + es[i..] == (k + [es[i]]) + es[i + 1..];
    }
  }

  /** A listing has a file called `name` exactly when `name` is among its names. */
  lemma LookupListed(es: seq<Entry>, name: string)
    ensures Lookup(es, name).Some? <==> name in Names(es)
  {
    if name in Names(es) {
      var i :| 0 <= i < |es| && Names(es)[i] == name;
      assert es[i].name == name;
    }
  }

  /** The directories of the disk, each with its listing in name order. */
  predicate ValidDirs(dirs: map<string, seq<Entry>>) {
    forall d :: d in dirs ==> Sorted(dirs[d])
  }

  /** `os.MkdirAll` of one directory: created empty unless it exists. */
  function WithDir(dirs: map<string, seq<Entry>>, path: string): (r: map<string, seq<Entry>>)
    ensures path in r && r.Keys == dirs.Keys + {path}
    ensures forall d :: d in dirs ==> r[d] == dirs[d]
  {
    if path in dirs then dirs else dirs[path := []]
  }

  /** `ioutil.ReadDir`: the names in a directory in listing order, or an error for a missing one. */
  function ReadDir(dirs: map<string, seq<Entry>>, path: string): Option<seq<string>> {
    if path in dirs then Some(Names(dirs[path])) else None
  }

  /** `ioutil.ReadFile` of `dir` joined with `name`: the contents, or an error. */
  function ReadFile(dirs: map<string, seq<Entry>>, dir: string, name: string): Option<Bytes> {
    if dir in dirs then Lookup(dirs[dir], name) else None
  }

  /**
   * `filepath.Join` of two elements that need no cleaning: an empty element is dropped,
   * otherwise they are joined by a slash.
   */
  function PathJoin(a: string, b: string): string {
    if a == "" then b else if b == "" then a else a + "/" + b
  }

  /** The disk: directories, by path, with their listings. */
  class Disk {
    var dirs: map<string, seq<Entry>>

    ghost predicate Valid()
      reads this
    {
      ValidDirs(dirs)
    }

    constructor (dirs: map<string, seq<Entry>>)
      requires ValidDirs(dirs)
      ensures Valid() && this.dirs == dirs
    {
      this.dirs := dirs;
    }

    /** `os.MkdirAll(path, ...)`, which never fails here. */
    method MkdirAll(path: string)
      requires Valid()
      modifies this
      ensures Valid() && dirs == WithDir(old(dirs), path)
    {
      if path !in dirs {
        dirs := dirs[path := []];
      }
    }

    /**
     * `ioutil.WriteFile(dir + "/" + name, data, 0644)`: fails when the directory does not
     * exist or the device refuses the write (`ok` false); otherwise the file is written.
     */
    method WriteFile(dir: string, name: string, data: Bytes, ok: bool) returns (failed: bool)
      requires Valid()
      modifies this
      ensures Valid()
      ensures failed <==> dir !in old(dirs) || !ok
      ensures dirs == if failed then old(dirs) else old(dirs)[dir := Put(old(dirs)[dir], name, data)]
    {
      if dir !in dirs || !ok {
        return true;
      }
      PutSorted(dirs[dir], name, data);
      dirs := dirs[dir := Put(dirs[dir], name, data)];
      return false;
    }

    /** `os.Remove(dir + "/" + name)`; removing a missing file changes nothing. */
    method Remove(dir: string, name: string)
      requires Valid()
      modifies this
      ensures Valid()
      ensures dirs == if dir in old(dirs) then old(dirs)[dir := RemoveName(old(dirs)[dir], name)] else old(dirs)
    {
      if dir in dirs {
        RemoveSorted(dirs[dir], name);
        dirs := dirs[dir := RemoveName(dirs[dir], name)];
      }
    }
  }
}
