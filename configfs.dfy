/**
 * The configfs sample: a subsystem whose root item, `Configuration`, has a
 * fixed-text attribute `message` and a read-write attribute `bar` backed by
 * a page-sized buffer plus a length; directories made under the root are
 * `Child` groups with a fixed-text attribute `baz`, and directories made
 * under those are `GrandChild` groups with a fixed-text attribute `gc` and
 * no further children.
 */
module RustConfigfs {
  import opened Kernel

  /** Size of the page every show writes into and every store reads from. */
  const PAGE_SIZE: nat := 4096

  /** The bytes of an ASCII string literal, without a terminating NUL. */
  function Ascii(s: string): (r: seq<u8>)
    requires forall i :: 0 <= i < |s| ==> s[i] as int < 0x80
    ensures |r| == |s| && forall i :: 0 <= i < |s| ==> r[i] as int == s[i] as int
  {
    seq(|s|, i requires 0 <= i < |s| => s[i] as int as u8)
  }

  /** What `show` of `message` writes. */
  const MESSAGE: seq<u8> := Ascii("Hello World\n")
  /** What `show` of a Child's `baz` writes. */
  const BAZ_TEXT: seq<u8> := Ascii("Hello Baz\n")
  /** What `show` of a GrandChild's `gc` writes. */
  const GC_TEXT: seq<u8> := Ascii("Hello GC\n")

  /**
   * The three kinds of item, named after their data types: the subsystem
   * root (data `Configuration`), `Child` and `GrandChild`.
   */
  datatype NodeKind = Root | Child | GrandChild

  /** One line of an item type's `attributes: [...]` list. */
  datatype Attribute = Attribute(name: string, index: nat, hasStore: bool)

  /** The child type an item type declares, if any. */
  function ChildKind(k: NodeKind): (c: Option<NodeKind>)
    ensures c.Some? ==> c.value != k && c.value != Root
  {
    match k
    case Root => Some(Child)
    case Child => Some(GrandChild)
    case GrandChild => None
  }

  /**
   * The attribute table of each item type: attribute i sits at index i,
   * names are unique, and only `bar` has a store handler.
   */
  function Attributes(k: NodeKind): (attrs: seq<Attribute>)
    ensures forall i :: 0 <= i < |attrs| ==> attrs[i].index == i
    ensures forall i, j :: 0 <= i < j < |attrs| ==> attrs[i].name != attrs[j].name
    ensures forall i :: 0 <= i < |attrs| ==> (attrs[i].hasStore <==> k == Root && i == 1)
  {
    match k
    case Root => [Attribute("message", 0, false), Attribute("bar", 1, true)]
    case Child => [Attribute("baz", 0, false)]
    case GrandChild => [Attribute("gc", 0, false)]
  }

  /** A group created by `make_group`: its name and the kind of its data. */
  datatype Group = Group(name: string, kind: NodeKind)

  /**
   * `make_group(name)` on an item of kind `parent`: a group of the parent's
   * declared child type, or nothing when the parent declares none.
   */
  function MakeGroup(parent: NodeKind, name: string): (r: Option<Group>)
    ensures r.Some? <==> parent != GrandChild
    ensures r.Some? ==> r.value.name == name && ChildKind(parent) == Some(r.value.kind)
  {
    match ChildKind(parent)
    case Some(c) => Some(Group(name, c))
    case None => None
  }

  /**
   * Making one directory per name, each inside the one made before,
   * starting from the item `from`: the groups made, or nothing if some step
   * is refused.
   */
  function MakePath(from: NodeKind, names: seq<string>): Option<seq<Group>>
    decreases names
  {
    if names == [] then Some([])
    else
      match MakeGroup(from, names[0])
      case None => None
      case Some(g) =>
        match MakePath(g.kind, names[1..])
        case None => None
        case Some(gs) => Some([g] + gs)
  }

  /** How many levels of directories the declared child types allow below an item of kind `k`. */
  function Height(k: NodeKind): nat
  {
    match k
    case Root => 2
    case Child => 1
    case GrandChild => 0
  }

  /**
   * The tree has a fixed shape: below an item of kind `from`, nested
   * directories can be made exactly as deep as its height, and each level
   * has the kind its parent declares.
   */
  lemma {:induction false} MakePathShape(from: NodeKind, names: seq<string>)
    ensures MakePath(from, names).Some? <==> |names| <= Height(from)
    ensures MakePath(from, names).Some? ==>
      var gs := MakePath(from, names).value;
      |gs| == |names| &&
      (forall i :: 0 <= i < |gs| ==> gs[i].name == names[i]) &&
      (|gs| > 0 ==> ChildKind(from) == Some(gs[0].kind)) &&
      (forall i :: 0 < i < |gs| ==> ChildKind(gs[i - 1].kind) == Some(gs[i].kind))
    decreases names
  {
    if names != [] {
      match MakeGroup(from, names[0])
      case None =>
      case Some(g) =>
        MakePathShape(g.kind, names[1..]);
        if MakePath(from, names).Some? {
          var gs := MakePath(from, names).value;
          var rest := MakePath(g.kind, names[1..]).value;
          assert gs == [g] + rest;
        }
    }
  }

  /** From the subsystem root: at most two levels of directories, Child then GrandChild. */
  lemma RootShape(names: seq<string>)
    ensures MakePath(Root, names).Some? <==> |names| <= 2
    ensures |names| == 2 ==>
      MakePath(Root, names) == Some([Group(names[0], Child), Group(names[1], GrandChild)])
  {
    MakePathShape(Root, names);
    if |names| == 2 {
      var gs := MakePath(Root, names).value;
      assert gs[0] == Group(names[0], Child);
      assert gs[1] == Group(names[1], GrandChild);
      assert gs == [Group(names[0], Child), Group(names[1], GrandChild)];
    }
  }

  /**
   * `copy_from_slice` into the front of `dst`: the first |src| elements
   * become `src` and the rest are untouched.
   */
  method CopyFromSlice(dst: array<u8>, src: seq<u8>)
    requires |src| <= dst.Length
    modifies dst
    ensures dst[..|src|] == src
    ensures dst[|src|..] == old(dst[|src|..])
  {
    var i := 0;
    while i < |src|
      invariant 0 <= i <= |src|
      invariant dst[..i] == src[..i]
      invariant dst[i..] == old(dst[i..])
    {
      dst[i] := src[i];
      i := i + 1;
    }
  }

  /** The root item's data. */
  class Configuration {
    /** The text `message` shows. */
    const message: seq<u8>
    /** The buffer behind `bar`; only its first `len` bytes hold the stored value. */
    const bar: array<u8>
    var len: nat

    ghost predicate Valid()
      reads this
    {
      message == MESSAGE && bar.Length == PAGE_SIZE && len <= PAGE_SIZE
    }

    /** The value of `bar`: what the last store wrote, as `show` sees it. */
    ghost function Bar(): (v: seq<u8>)
      reads this, bar
      requires Valid()
      ensures |v| == len
    {
      bar[..len]
    }

    /** `Configuration::new`: the message text, a zeroed page and length 0. */
    constructor ()
      ensures Valid() && fresh(bar)
      ensures Bar() == [] && bar[..] == seq(PAGE_SIZE, _ => 0)
    {
      message := MESSAGE;
      bar := new u8[PAGE_SIZE](_ => 0);
      len := 0;
    }

    /** `show` of attribute 0, `message`: writes the message and returns its length. */
    method ShowMessage(page: array<u8>) returns (n: nat)
      requires Valid() && page.Length == PAGE_SIZE && page != bar
      modifies page
      ensures n == |MESSAGE| && page[..n] == MESSAGE
      ensures page[n..] == old(page[n..])
    {
      CopyFromSlice(page, message);
      n := |message|;
    }

    /** `show` of attribute 1, `bar`: writes the stored bytes and returns their count. */
    method ShowBar(page: array<u8>) returns (n: nat)
      requires Valid() && page.Length == PAGE_SIZE && page != bar
      modifies page
      ensures n == |Bar()| && page[..n] == Bar()
      ensures page[n..] == old(page[n..])
    {
      CopyFromSlice(page, bar[..len]);
      n := len;
    }

    /**
     * `store` of attribute 1, `bar`: copy `p` to the front of the buffer
     * and record its length. Bytes past |p| from an earlier, longer store
     * stay in the buffer but are no longer part of the value.
     */
    method StoreBar(p: seq<u8>)
      requires Valid() && |p| <= PAGE_SIZE
      modifies this, bar
      ensures Valid() && Bar() == p
      ensures bar[|p|..] == old(bar[|p|..])
    {
      CopyFromSlice(bar, p);
      len := |p|;
    }
  }

  /** `show` of a Child's attribute 0, `baz`: fixed text, no item state read. */
  method ShowBaz(page: array<u8>) returns (n: nat)
    requires page.Length == PAGE_SIZE
    modifies page
    ensures n == |BAZ_TEXT| && page[..n] == BAZ_TEXT
    ensures page[n..] == old(page[n..])
  {
    CopyFromSlice(page, BAZ_TEXT);
    n := |BAZ_TEXT|;
  }

  /** `show` of a GrandChild's attribute 0, `gc`: fixed text, no item state read. */
  method ShowGc(page: array<u8>) returns (n: nat)
    requires page.Length == PAGE_SIZE
    modifies page
    ensures n == |GC_TEXT| && page[..n] == GC_TEXT
    ensures page[n..] == old(page[n..])
  {
    CopyFromSlice(page, GC_TEXT);
    n := |GC_TEXT|;
  }

  /** The fixed texts have the lengths the handlers return: 12, 10 and 9 bytes. */
  lemma FixedTextLengths()
    ensures |MESSAGE| == 12 && |BAZ_TEXT| == 10 && |GC_TEXT| == 9
  {
  }

  /**
   * Store `first`, then `second`, then show `bar`: the show returns exactly
   * `second`, however long `first` was.
   */
  method StoreStoreShow(first: seq<u8>, second: seq<u8>) returns (n: nat, shown: seq<u8>)
    requires |first| <= PAGE_SIZE && |second| <= PAGE_SIZE
    ensures n == |second| && shown == second
  {
    var c := new Configuration();
    c.StoreBar(first);
    c.StoreBar(second);
    var page := new u8[PAGE_SIZE](_ => 0);
    n := c.ShowBar(page);
    shown := page[..n];
  }

  /** A fresh root shows an empty `bar` and leaves the page as it was. */
  method ShowFreshBar() returns (n: nat, untouched: bool)
    ensures n == 0 && untouched
  {
    var c := new Configuration();
    var page := new u8[PAGE_SIZE](i => (i % 0x100) as u8);
    var before := page[..];
    n := c.ShowBar(page);
    untouched := page[..] == before;
  }

  /** `message` shows the same 12 bytes whatever `bar` holds. */
  method ShowMessageAfterStore(p: seq<u8>) returns (n: nat, shown: seq<u8>)
    requires |p| <= PAGE_SIZE
    ensures n == 12 && shown == Ascii("Hello World\n")
  {
    var c := new Configuration();
    c.StoreBar(p);
    var page := new u8[PAGE_SIZE](_ => 0);
    n := c.ShowMessage(page);
    shown := page[..n];
  }
}
