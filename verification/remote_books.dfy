/** The remote (WebDAV) book list of `RemoteBookViewModel`: the list the data
    callback keeps, the filter by file name, and the sort applied to every
    emitted list. */
module RemoteBooks {
  import opened Wrappers
  import opened Text
  import opened Sorting

  /** A remote file or directory. */
  datatype RemoteBook = RemoteBook(filename: string, path: string, size: int, lastModify: int, isDir: bool)

  /** `RemoteBookSort`: by name, or the default (by modification time). */
  datatype SortKey = Default | Name

  /** The callback's list and the last list it emitted. */
  datatype Feed = Feed(list: seq<RemoteBook>, emitted: seq<RemoteBook>)

  /** `setItems`: the list becomes exactly the given files, and is emitted. */
  function SetItems(f: Feed, files: seq<RemoteBook>): (r: Feed)
    ensures r.list == files && r.emitted == files
  {
    Feed(files, files)
  }

  /** `addItems`: the files are appended behind the earlier ones, and the list is emitted. */
  function AddItems(f: Feed, files: seq<RemoteBook>): (r: Feed)
    ensures |r.list| == |f.list| + |files|
    ensures r.list[..|f.list|] == f.list && r.list[|f.list|..] == files
    ensures r.emitted == r.list
  {
    var l := f.list + files;
    Feed(l, l)
  }

  /** `clear`: the list empties and an empty list is emitted. */
  function Clear(f: Feed): (r: Feed)
    ensures r.list == [] && r.emitted == []
  {
    Feed([], [])
  }

  /** The files whose name contains `key`, in list order. */
  function FilterByName(list: seq<RemoteBook>, key: string): (r: seq<RemoteBook>)
    ensures |r| <= |list|
  {
    if |list| == 0 then []
    else if Contains(list[0].filename, key) then [list[0]] + FilterByName(list[1..], key)
    else FilterByName(list[1..], key)
  }

  /** The filter keeps a file exactly when it is in the list and its name
      contains the key. */
  lemma {:induction false} FilterByNameMembers(list: seq<RemoteBook>, key: string, b: RemoteBook)
    ensures b in FilterByName(list, key) <==> b in list && Contains(b.filename, key)
  {
    if |list| > 0 {
      FilterByNameMembers(list[1..], key, b);
      assert list == [list[0]] + list[1..];
    }
  }

  /** `screen`: a null or blank key emits the whole list; any other key emits
      the files whose name contains it. The list itself is not changed. */
  function Screen(f: Feed, key: Option<string>): (r: Feed)
    ensures r.list == f.list
    ensures IsNullOrBlank(key) ==> r.emitted == f.list
    ensures !IsNullOrBlank(key) ==> r.emitted == FilterByName(f.list, key.value)
  {
    if IsNullOrBlank(key) then f.(emitted := f.list)
    else f.(emitted := FilterByName(f.list, key.value))
  }

  /** The filter works file by file, keeping the list's order: filtering a
      concatenation concatenates the filtered parts. */
  lemma {:induction false} FilterDistributes(a: seq<RemoteBook>, b: seq<RemoteBook>, key: string)
    ensures FilterByName(a + b, key) == FilterByName(a, key) + FilterByName(b, key)
  {
    if |a| > 0 {
      var ab := a + b;
      assert ab[0] == a[0] && ab[1..] == a[1..] + b;
      FilterDistributes(a[1..], b, key);
    } else {
      assert a + b == b;
    }
  }

  /** What the screen shows after each callback: after `addItems`, the earlier
      list's matches followed by the new files' matches; after `setItems`, the
      new files' matches whatever was there before; after `clear`, nothing. */
  lemma ScreenAfterCallbacks(f: Feed, g: Feed, files: seq<RemoteBook>, key: Option<string>)
    ensures Screen(AddItems(f, files), key).emitted
            == Screen(f, key).emitted + Screen(SetItems(g, files), key).emitted
    ensures Screen(SetItems(f, files), key) == Screen(SetItems(g, files), key)
    ensures Screen(Clear(f), key).emitted == []
    ensures AddItems(Clear(f), files) == SetItems(g, files)
  {
    if !IsNullOrBlank(key) {
      FilterDistributes(f.list, files, key.value);
    }
    assert [] + files == files;
  }

  /** Directories first: `compareBy { !it.isDir }`. */
  function DirsFirst(): (RemoteBook, RemoteBook) -> int {
    By(CompareBools, (b: RemoteBook) => !b.isDir)
  }

  /** `compareValues(o1.isDir, o2.isDir)`, which the descending sorts negate. */
  function DirCompare(): (RemoteBook, RemoteBook) -> int {
    By(CompareBools, (b: RemoteBook) => b.isDir)
  }

  function ByLastModify(): (RemoteBook, RemoteBook) -> int {
    By(CompareInts, (b: RemoteBook) => b.lastModify)
  }

  /** The file-name comparator (`AlphanumComparator`) applied to file names. */
  function ByName(nameCmp: (string, string) -> int): (RemoteBook, RemoteBook) -> int {
    By(nameCmp, (b: RemoteBook) => b.filename)
  }

  /** The comparator each sort key and direction uses. */
  function Comparator(key: SortKey, ascending: bool, nameCmp: (string, string) -> int): (RemoteBook, RemoteBook) -> int {
    if ascending then
      match key
      case Name => ThenBy(DirsFirst(), ByName(nameCmp))
      case Default => ThenBy(DirsFirst(), ByLastModify())
    else
      match key
      case Name => ThenBy(Reversed(DirCompare()), Reversed(ByName(nameCmp)))
      case Default => ThenBy(Reversed(DirCompare()), Reversed(ByLastModify()))
  }

  /** The `dataFlow.map` step: sort the emitted list by the current key and direction. */
  function SortList(list: seq<RemoteBook>, key: SortKey, ascending: bool, nameCmp: (string, string) -> int): (r: seq<RemoteBook>)
    ensures multiset(r) == multiset(list)
  {
    SortedWith(Comparator(key, ascending, nameCmp), list)
  }

  lemma ComparatorValid(key: SortKey, ascending: bool, nameCmp: (string, string) -> int)
    requires ValidComparator(nameCmp)
    ensures ValidComparator(Comparator(key, ascending, nameCmp))
  {
    NaturalOrdersValid();
    ByValid(CompareBools, (b: RemoteBook) => !b.isDir);
    ByValid(CompareBools, (b: RemoteBook) => b.isDir);
    ByValid(CompareInts, (b: RemoteBook) => b.lastModify);
    ByValid(nameCmp, (b: RemoteBook) => b.filename);
    ReversedValid(DirCompare());
    ReversedValid(ByLastModify());
    ReversedValid(ByName(nameCmp));
    ThenByValid(DirsFirst(), ByName(nameCmp));
    ThenByValid(DirsFirst(), ByLastModify());
    ThenByValid(Reversed(DirCompare()), Reversed(ByName(nameCmp)));
    ThenByValid(Reversed(DirCompare()), Reversed(ByLastModify()));
  }

  /** The order inside the directory group and inside the file group: by
      modification time rising or falling, or by the name comparator forwards or backwards. */
  predicate InGroupOrder(key: SortKey, ascending: bool, nameCmp: (string, string) -> int, a: RemoteBook, b: RemoteBook) {
    match key
    case Default => if ascending then a.lastModify <= b.lastModify else a.lastModify >= b.lastModify
    case Name => if ascending then nameCmp(a.filename, b.filename) <= 0 else nameCmp(a.filename, b.filename) >= 0
  }

  /** What one comparison of each mode says about a pair it does not swap. */
  lemma PairOrder(key: SortKey, ascending: bool, nameCmp: (string, string) -> int, a: RemoteBook, b: RemoteBook)
    requires Comparator(key, ascending, nameCmp)(a, b) <= 0
    ensures b.isDir ==> a.isDir
    ensures a.isDir == b.isDir ==> InGroupOrder(key, ascending, nameCmp, a, b)
  {
    assert DirsFirst()(a, b) == CompareBools(!a.isDir, !b.isDir);
    assert DirCompare()(a, b) == CompareBools(a.isDir, b.isDir);
    assert Reversed(DirCompare())(a, b) == -CompareBools(a.isDir, b.isDir);
    assert ByLastModify()(a, b) == CompareInts(a.lastModify, b.lastModify);
    assert Reversed(ByLastModify())(a, b) == -CompareInts(a.lastModify, b.lastModify);
    assert ByName(nameCmp)(a, b) == nameCmp(a.filename, b.filename);
    assert Reversed(ByName(nameCmp))(a, b) == -nameCmp(a.filename, b.filename);
  }

  /** What every sort mode promises: a permutation with all directories in front
      of all files, and inside each group the order of the mode. */
  lemma SortListOrder(list: seq<RemoteBook>, key: SortKey, ascending: bool, nameCmp: (string, string) -> int)
    requires ValidComparator(nameCmp)
    ensures var r := SortList(list, key, ascending, nameCmp);
      && multiset(r) == multiset(list)
      && (forall i, j :: 0 <= i < j < |r| && r[j].isDir ==> r[i].isDir)
      && (forall i, j :: 0 <= i < j < |r| && r[i].isDir == r[j].isDir ==> InGroupOrder(key, ascending, nameCmp, r[i], r[j]))
  {
    var cmp := Comparator(key, ascending, nameCmp);
    ComparatorValid(key, ascending, nameCmp);
    SortedWithIsSorted(cmp, list);
    var r := SortList(list, key, ascending, nameCmp);
    forall i, j | 0 <= i < j < |r|
      ensures r[j].isDir ==> r[i].isDir
      ensures r[i].isDir == r[j].isDir ==> InGroupOrder(key, ascending, nameCmp, r[i], r[j])
    {
      PairOrder(key, ascending, nameCmp, r[i], r[j]);
    }
  }
}
