/** Path resolution with symbolic links (ffs_open_file in bootstrap/ffs_file_io.c) in a fixed buffer, in
    which a link's text is put before the rest of the path by an overlapping copy (ovbcopy in
    bootstrap/strfcns.c). */
module PathLookup {

  import opened Options

  const MAXPATHLEN := 1024
  const MAXSYMLINKS := 8
  const MAXNAMLEN := 255
  const NUL: char := '\0'

  // ---------------------------------------------------------------- copying in place

  /** bcopy, which copies from low to high addresses. */
  method CopyUp(a: array<char>, from: nat, to: nat, n: nat)
    requires from + n <= a.Length && to + n <= a.Length && (to <= from || from + n <= to)
    modifies a
    ensures forall k :: 0 <= k < a.Length ==> a[k] == old(if to <= k < to + n then a[from + (k - to)] else a[k])
  {
    for i := 0 to n
      invariant forall k :: 0 <= k < a.Length ==> a[k] == old(if to <= k < to + i then a[from + (k - to)] else a[k])
    {
      a[to + i] := a[from + i];
    }
  }

  method CopyDown(a: array<char>, from: nat, to: nat, n: nat)
    requires from + n <= a.Length && to + n <= a.Length && from <= to
    modifies a
    ensures forall k :: 0 <= k < a.Length ==> a[k] == old(if to <= k < to + n then a[from + (k - to)] else a[k])
  {
    var i := n;
    while i > 0
      invariant 0 <= i <= n
      invariant forall k :: 0 <= k < a.Length ==> a[k] == old(if to + i <= k < to + n then a[from + (k - to)] else a[k])
    {
      i := i - 1;
      a[to + i] := a[from + i];
    }
  }

  /** ovbcopy: the destination becomes what the source was, however they overlap, and nothing else changes. */
  method OverlappingCopy(a: array<char>, from: nat, to: nat, n: nat)
    requires from + n <= a.Length && to + n <= a.Length
    modifies a
    ensures forall k :: 0 <= k < a.Length ==> a[k] == old(if to <= k < to + n then a[from + (k - to)] else a[k])
  {
    if from + n <= to || to + n <= from || to == from {
      CopyUp(a, from, to, n);
    } else if from > to {
      CopyUp(a, from, to, n);
    } else {
      CopyDown(a, from, to, n);
    }
  }

  // ---------------------------------------------------------------- strings in the buffer

  /** The buffer holds string `s` from index `at` on, with its terminator. */
  ghost predicate HasString(a: array<char>, at: nat, s: string)
    reads a
  {
    at + |s| < a.Length && a[at + |s|] == NUL && forall k :: 0 <= k < |s| ==> s[k] == a[at + k] != NUL
  }

  lemma Drop(a: array<char>, at: nat, s: string, n: nat)
    requires HasString(a, at, s) && n <= |s|
    ensures HasString(a, at + n, s[n..])
    ensures n == |s| <==> a[at + n] == NUL
    ensures n < |s| ==> s[n] == a[at + n]
  {
    var t := s[n..];
    forall k | 0 <= k < |t| ensures t[k] == a[at + n + k] != NUL { assert t[k] == s[n + k]; }
    if n < |s| { assert s[n] == t[0] == a[at + n + 0]; }
  }

  method StringLength(a: array<char>, at: nat, ghost s: string) returns (n: nat)
    requires HasString(a, at, s)
    ensures n == |s|
  {
    n := 0;
    Drop(a, at, s, 0);
    while a[at + n] != NUL
      invariant n <= |s| && (n == |s| <==> a[at + n] == NUL)
      decreases |s| - n
    {
      n := n + 1;
      Drop(a, at, s, n);
    }
  }

  /** A symbolic link is replaced by its text: the text, then what was left of the path. */
  method SpliceLink(a: array<char>, cp: nat, text: string, ghost rest: string)
    requires HasString(a, cp, rest) && NUL !in text && |text| + |rest| < a.Length
    modifies a
    ensures HasString(a, 0, text + rest)
  {
    var len := StringLength(a, cp, rest);
    OverlappingCopy(a, cp, |text|, len + 1);
    assert a[|text| + |rest|] == NUL;
    assert forall k :: 0 <= k < |rest| ==> rest[k] == a[|text| + k];
    for i := 0 to |text|
      invariant forall k :: 0 <= k < i ==> a[k] == text[k]
      invariant a[|text| + |rest|] == NUL && forall k :: 0 <= k < |rest| ==> rest[k] == a[|text| + k] != NUL
    {
      a[i] := text[i];
    }
    var all := text + rest;
    forall k | 0 <= k < |all| ensures all[k] == a[0 + k] != NUL {
      if k < |text| {
        assert all[k] == text[k];
      } else {
        assert all[k] == rest[k - |text|] == a[|text| + (k - |text|)];
      }
    }
  }

  // ---------------------------------------------------------------- searching a directory

  /** A directory record; `oldNamlen` is where the older format keeps the length of the name. */
  datatype Record = Record(ino: nat, reclen: nat, namlen: nat, oldNamlen: nat, name: string)

  /** A directory file: the record that begins at each byte offset.  Records have a positive length. */
  type DirFile = d: seq<Record> | forall off :: 0 <= off < |d| ==> d[off].reclen > 0

  predicate Names(r: Record, name: string) {
    r.ino != 0 && (if r.namlen == 0 then r.oldNamlen else r.namlen) == |name| && r.name == name
  }

  /** The offsets of the records from `off` on. */
  function Records(d: DirFile, off: nat): (r: seq<nat>)
    ensures forall k :: 0 <= k < |r| ==> r[k] < |d|
    decreases |d| - off
  {
    if off >= |d| then [] else [off] + Records(d, off + d[off].reclen)
  }

  /** The inode of the name from the record at `off` on. */
  function FindFrom(d: DirFile, off: nat, name: string): Option<nat>
    decreases |d| - off
  {
    if off >= |d| then None
    else if Names(d[off], name) then Some(d[off].ino)
    else FindFrom(d, off + d[off].reclen, name)
  }

  predicate NamedAt(d: DirFile, offs: seq<nat>, k: nat, name: string)
    requires k < |offs| && offs[k] < |d|
  {
    Names(d[offs[k]], name)
  }

  /** It is that of the first record of the name, and there is none only where no record has the name. */
  lemma {:induction false} FindIsFirst(d: DirFile, off: nat, name: string) returns (i: nat)
    ensures var offs, found := Records(d, off), FindFrom(d, off, name);
            && i <= |offs| && (found.Some? <==> i < |offs|) && (forall k: nat :: k < i ==> !NamedAt(d, offs, k, name))
            && (i < |offs| ==> NamedAt(d, offs, i, name) && found == Some(d[offs[i]].ino))
    decreases |d| - off
  {
    i := 0;
    if off < |d| && !Names(d[off], name) {
      var next := off + d[off].reclen;
      var j := FindIsFirst(d, next, name);
      i := j + 1;
      var offs, rest := Records(d, off), Records(d, next);
      assert offs == [off] + rest;
      forall k: nat | k < i ensures !NamedAt(d, offs, k, name) { assert k > 0 ==> !NamedAt(d, rest, k - 1, name); }
      if j < |rest| { assert NamedAt(d, rest, j, name) && offs[i] == rest[j]; }
    }
  }

  /** search_directory. */
  method SearchDirectory(d: DirFile, name: string) returns (ino: Option<nat>)
    ensures ino == FindFrom(d, 0, name)
  {
    var offset := 0;
    while offset < |d|
      invariant FindFrom(d, 0, name) == FindFrom(d, offset, name)
      decreases |d| - offset
    {
      var r := d[offset];
      if Names(r, name) { return Some(r.ino); }
      offset := offset + r.reclen;
    }
    return None;
  }

  // ---------------------------------------------------------------- the file systems

  datatype Node = Directory | Regular | Link(text: string)

  /** A name that opens no device, a device that holds no file system, or one with its root directory. */
  datatype Device = Absent | Unformatted | Mounted(root: nat)

  /** What is on the disks: nodes, the directory files among them, and devices. */
  datatype World = World(node: nat -> Node, files: nat -> DirFile, device: string -> Device) {
    /** The entry that a directory has for a name. */
    function Lookup(dir: nat, name: string): Option<nat> { FindFrom(files(dir), 0, name) }
  }

  /** Link texts are strings. */
  ghost predicate WorldOk(w: World) { forall n: nat :: w.node(n).Link? ==> NUL !in w.node(n).text }

  datatype Error =
    NotDirectory | NameTooLong | InvalidParameter | NoEntry | SymlinkLoop | NoSuchDevice | InvalidFileSystem

  datatype Outcome = Found(n: nat) | IsDevice(name: string) | Failed(e: Error)

  // ---------------------------------------------------------------- what a path means

  /** Where the separators that start at index `i` end. */
  function SkipSlashes(p: string, i: nat): (r: nat)
    requires i <= |p|
    ensures i <= r <= |p| && (r < |p| ==> p[r] != '/') && forall k :: i <= k < r ==> p[k] == '/'
    decreases |p| - i
  {
    if i < |p| && p[i] == '/' then SkipSlashes(p, i + 1) else i
  }

  /** Where the component that starts at index `start` ends, or why there is none. */
  datatype Scan = End(at: nat) | Bad(e: Error)

  function ScanComponent(p: string, start: nat, i: nat): (r: Scan)
    requires start <= i <= |p|
    ensures r.End? ==> i <= r.at <= |p| && (r.at < |p| ==> p[r.at] == '/')
    decreases |p| - i
  {
    if i == |p| || p[i] == '/' then End(i)
    else if i - start > MAXNAMLEN then Bad(NameTooLong)
    else if p[i] as int >= 128 then Bad(InvalidParameter)
    else ScanComponent(p, start, i + 1)
  }

  function FirstSlash(p: string, i: nat): (n: nat)
    requires i <= |p|
    ensures i <= n <= |p| && (n < |p| ==> p[n] == '/') && forall k :: i <= k < n ==> p[k] != '/'
    decreases |p| - i
  {
    if i == |p| || p[i] == '/' then i else FirstSlash(p, i + 1)
  }

  predicate DevPrefix(p: string) { |p| >= 5 && p[..5] == "/dev/" }

  /** What path `p` leads to from node `cur` of the device with root `root`, following at most `links`
      symbolic links. */
  function Resolve(w: World, root: nat, cur: nat, p: string, links: nat): Outcome
    decreases links, |p|, 1
  {
    if p == [] then Found(cur)
    else if !w.node(cur).Directory? then Failed(NotDirectory)
    else
      var start := SkipSlashes(p, 0);
      match ScanComponent(p, start, start)
      case Bad(e) => Failed(e)
      case End(n) =>
        match w.Lookup(cur, p[start..n])
        case None => Failed(NoEntry)
        case Some(node) => Enter(w, root, cur, node, p[n..], links)
  }

  /** The entry found is the next node, or a link whose text goes before the rest of the path. */
  function Enter(w: World, root: nat, parent: nat, node: nat, rest: string, links: nat): Outcome
    decreases links, |rest|, 2
  {
    match w.node(node)
    case Link(text) =>
      if |text| + |rest| + 1 >= MAXPATHLEN - 1 then Failed(NameTooLong)
      else if links == 0 then Failed(SymlinkLoop)
      else Restart(w, root, parent, text + rest, links - 1)
    case _ => Resolve(w, root, node, rest, links)
  }

  /** A link's text begins again: at the directory of the link, at the root, or on another device. */
  function Restart(w: World, root: nat, parent: nat, p: string, links: nat): Outcome
    decreases links + 1, 0, 1
  {
    if p == [] || p[0] != '/' then Resolve(w, root, parent, p, links)
    else if !DevPrefix(p) then Resolve(w, root, root, p, links)
    else OnDevice(w, p[5..], links)
  }

  function OnDevice(w: World, p: string, links: nat): Outcome
    decreases links + 1, 0, 0
  {
    var n := FirstSlash(p, 0);
    match w.device(p[..n])
    case Absent => Failed(NoSuchDevice)
    case Unformatted => if n == |p| then IsDevice(p[..n]) else Failed(InvalidFileSystem)
    case Mounted(root) => if n == |p| then IsDevice(p[..n]) else Resolve(w, root, root, p[n..], links)
  }

  /** A path must name a device first. */
  function Open(w: World, p: string): Outcome {
    if !DevPrefix(p) then Failed(NoEntry) else OnDevice(w, p[5..], MAXSYMLINKS)
  }

  // ---------------------------------------------------------------- the code, on its buffer

  method SkipSeparators(a: array<char>, at: nat, ghost p: string) returns (n: nat)
    requires HasString(a, at, p)
    ensures n == SkipSlashes(p, 0)
  {
    n := 0;
    Drop(a, at, p, n);
    while a[at + n] == '/'
      invariant n <= |p| && SkipSlashes(p, n) == SkipSlashes(p, 0)
      invariant (n == |p| <==> a[at + n] == NUL) && (n < |p| ==> p[n] == a[at + n])
      decreases |p| - n
    {
      n := n + 1;
      Drop(a, at, p, n);
    }
  }

  method ScanName(a: array<char>, at: nat, ghost p: string, start: nat) returns (r: Scan)
    requires HasString(a, at, p) && start <= |p|
    ensures r == ScanComponent(p, start, start)
  {
    var i, len := start, 0;
    Drop(a, at, p, i);
    while a[at + i] != NUL && a[at + i] != '/'
      invariant len == i - start && i <= |p| && ScanComponent(p, start, i) == ScanComponent(p, start, start)
      invariant (i == |p| <==> a[at + i] == NUL) && (i < |p| ==> p[i] == a[at + i])
      decreases |p| - i
    {
      if len > MAXNAMLEN { return Bad(NameTooLong); }
      len := len + 1;
      if a[at + i] as int >= 128 { return Bad(InvalidParameter); }
      i := i + 1;
      Drop(a, at, p, i);
    }
    return End(i);
  }

  method ScanDevice(a: array<char>, at: nat, ghost p: string) returns (n: nat)
    requires HasString(a, at, p)
    ensures n == FirstSlash(p, 0)
  {
    n := 0;
    Drop(a, at, p, n);
    while a[at + n] != NUL && a[at + n] != '/'
      invariant n <= |p| && FirstSlash(p, n) == FirstSlash(p, 0)
      invariant (n == |p| <==> a[at + n] == NUL) && (n < |p| ==> p[n] == a[at + n])
      decreases |p| - n
    {
      n := n + 1;
      Drop(a, at, p, n);
    }
  }

  /** Opens the device named at index `at`: either that decides the outcome, or the path goes on at index
      `cp` from the root directory of the device. */
  method OpenDevice(w: World, a: array<char>, at: nat, ghost p: string, ghost links: nat)
    returns (r: Option<Outcome>, root: nat, cp: nat, ghost q: string)
    requires HasString(a, at, p)
    ensures r.Some? ==> r.value == OnDevice(w, p, links)
    ensures r.None? ==> HasString(a, cp, q) && Resolve(w, root, root, q, links) == OnDevice(w, p, links)
  {
    var n := ScanDevice(a, at, p);
    var name := a[at..at + n];
    assert name == p[..n];
    Drop(a, at, p, n);
    root, cp, q := 0, at + n, p[n..];
    match w.device(name)
    case Absent => r := Some(Failed(NoSuchDevice));
    case Unformatted => r := Some(if a[cp] == NUL then IsDevice(name) else Failed(InvalidFileSystem));
    case Mounted(top) =>
      root := top;
      assert n < |p| ==> OnDevice(w, p, links) == Resolve(w, top, top, q, links);
      r := if a[cp] == NUL then Some(IsDevice(name)) else None;
  }

  method StartsWithDev(a: array<char>, at: nat, ghost p: string) returns (r: bool)
    requires HasString(a, at, p)
    ensures r == DevPrefix(p)
  {
    var prefix := "/dev/";
    for i := 0 to 5
      invariant i <= |p| && p[..i] == prefix[..i]
    {
      assert i < |p| ==> p[i] == a[at + i];
      if a[at + i] != prefix[i] {
        assert |p| >= 5 ==> p[..5][i] != prefix[i];
        return false;
      }
    }
    return true;
  }

  /** Follows a link: either that decides the outcome, or the path goes on at index `next` from node `cur`. */
  method FollowLink(w: World, a: array<char>, cp: nat, text: string, ghost rest: string, root: nat, parent: nat,
                    ghost links: nat)
    returns (r: Option<Outcome>, top: nat, cur: nat, next: nat, ghost p: string)
    requires HasString(a, cp, rest) && NUL !in text && |text| + |rest| < a.Length
    modifies a
    ensures r.Some? ==> r.value == Restart(w, root, parent, text + rest, links)
    ensures r.None? ==>
      HasString(a, next, p) && Resolve(w, top, cur, p, links) == Restart(w, root, parent, text + rest, links)
  {
    SpliceLink(a, cp, text, rest);
    r, top, cur, next, p := None, root, parent, 0, text + rest;
    Drop(a, 0, p, 0);
    if a[0] == '/' {
      var isDev := StartsWithDev(a, 0, p);
      if !isDev {
        cur := root;
      } else {
        Drop(a, 0, p, 5);
        r, top, next, p := OpenDevice(w, a, 5, p[5..], links);
        cur := top;
      }
    }
  }

  /** The component at index `cp`: where it ends, and the entry it names in directory `cur`. */
  method NextEntry(w: World, a: array<char>, cp: nat, ghost p: string, cur: nat, ghost root: nat,
                   ghost links: nat)
    returns (e: Option<Error>, node: nat, next: nat, ghost rest: string)
    requires HasString(a, cp, p) && p != [] && w.node(cur).Directory?
    ensures e.Some? ==> Resolve(w, root, cur, p, links) == Failed(e.value)
    ensures e.None? ==> HasString(a, next, rest) && |rest| < |p|
    ensures e.None? ==> Resolve(w, root, cur, p, links) == Enter(w, root, cur, node, rest, links)
  {
    var start := SkipSeparators(a, cp, p);
    node, next, rest := 0, cp, p;
    var scan := ScanName(a, cp, p, start);
    match scan
    case Bad(why) => e := Some(why);
    case End(n) =>
      Drop(a, cp, p, n);
      var component := a[cp + start..cp + n];
      assert component == p[start..n];
      var found := SearchDirectory(w.files(cur), component);
      match found
      case None => e := Some(NoEntry);
      case Some(ino) => e, node, next, rest := None, ino, cp + n, p[n..];
  }

  method Walk(w: World, a: array<char>, start: nat, ghost path: string, device: nat) returns (r: Outcome)
    requires WorldOk(w) && HasString(a, start, path) && a.Length == MAXPATHLEN + 1
    modifies a
    ensures r == Resolve(w, device, device, path, MAXSYMLINKS)
  {
    var cp, root, cur, nlinks := start, device, device, 0;
    ghost var p := path;
    Drop(a, cp, p, 0);
    while a[cp] != NUL
      invariant 0 <= nlinks <= MAXSYMLINKS && HasString(a, cp, p) && (p == [] <==> a[cp] == NUL)
      invariant Resolve(w, root, cur, p, MAXSYMLINKS - nlinks) == Resolve(w, device, device, path, MAXSYMLINKS)
      decreases MAXSYMLINKS - nlinks, |p|
    {
      if !w.node(cur).Directory? { return Failed(NotDirectory); }
      var e, node, next, rest := NextEntry(w, a, cp, p, cur, root, MAXSYMLINKS - nlinks);
      if e.Some? { return Failed(e.value); }
      match w.node(node) {
      case Link(text) =>
        var len := StringLength(a, next, rest);
        if |text| + (len + 1) >= MAXPATHLEN - 1 { return Failed(NameTooLong); }
        nlinks := nlinks + 1;
        if nlinks > MAXSYMLINKS { return Failed(SymlinkLoop); }
        var o;
        o, root, cur, cp, p := FollowLink(w, a, next, text, rest, root, cur, MAXSYMLINKS - nlinks);
        if o.Some? { return o.value; }
      case _ =>
        cur, cp, p := node, next, rest;
      }
      Drop(a, cp, p, 0);
    }
    return Found(cur);
  }

  /** ffs_open_file computes what the path means, within its buffer, however the links lead.  A path that does not
      fit the buffer is copied past its end, and nothing is promised. */
  method OpenFile(w: World, path: string) returns (r: Option<Outcome>)
    requires WorldOk(w) && NUL !in path
    ensures r.None? <==> |path| > MAXPATHLEN
    ensures r.Some? ==> r.value == Open(w, path)
  {
    if |path| > MAXPATHLEN { return None; }
    var a := new char[MAXPATHLEN + 1];
    for i := 0 to |path|
      invariant forall k :: 0 <= k < i ==> a[k] == path[k]
    {
      a[i] := path[i];
    }
    a[|path|] := NUL;
    assert HasString(a, 0, path);
    var isDev := StartsWithDev(a, 0, path);
    if !isDev { return Some(Failed(NoEntry)); }
    Drop(a, 0, path, 5);
    var o, root, cp, p := OpenDevice(w, a, 5, path[5..], MAXSYMLINKS);
    if o.Some? { return o; }
    var found := Walk(w, a, cp, p, root);
    r := Some(found);
  }

  // ---------------------------------------------------------------- what resolution promises

  /** The bound on links decides only whether resolution gives up: any other answer is the answer under every
      larger bound. */
  lemma {:induction false} BoundOnlyStopsLoops(w: World, root: nat, cur: nat, p: string, links: nat, more: nat)
    requires links <= more && Resolve(w, root, cur, p, links) != Failed(SymlinkLoop)
    ensures Resolve(w, root, cur, p, more) == Resolve(w, root, cur, p, links)
    decreases links, |p|, 1
  {
    if p != [] && w.node(cur).Directory? {
      var start := SkipSlashes(p, 0);
      match ScanComponent(p, start, start)
      case Bad(_) =>
      case End(n) =>
        match w.Lookup(cur, p[start..n])
        case None =>
        case Some(node) => EnterBound(w, root, cur, node, p[n..], links, more);
    }
  }

  lemma {:induction false} EnterBound(w: World, root: nat, parent: nat, node: nat, rest: string, links: nat, more: nat)
    requires links <= more && Enter(w, root, parent, node, rest, links) != Failed(SymlinkLoop)
    ensures Enter(w, root, parent, node, rest, more) == Enter(w, root, parent, node, rest, links)
    decreases links, |rest|, 2
  {
    match w.node(node)
    case Link(text) =>
      if |text| + |rest| + 1 < MAXPATHLEN - 1 { RestartBound(w, root, parent, text + rest, links - 1, more - 1); }
    case _ => BoundOnlyStopsLoops(w, root, node, rest, links, more);
  }

  lemma {:induction false} RestartBound(w: World, root: nat, parent: nat, p: string, links: nat, more: nat)
    requires links <= more && Restart(w, root, parent, p, links) != Failed(SymlinkLoop)
    ensures Restart(w, root, parent, p, more) == Restart(w, root, parent, p, links)
    decreases links + 1, 0, 0
  {
    if p == [] || p[0] != '/' {
      BoundOnlyStopsLoops(w, root, parent, p, links, more);
    } else if !DevPrefix(p) {
      BoundOnlyStopsLoops(w, root, root, p, links, more);
    } else {
      var q := p[5..];
      var n := FirstSlash(q, 0);
      match w.device(q[..n])
      case Mounted(top) => if n < |q| { BoundOnlyStopsLoops(w, top, top, q[n..], links, more); }
      case _ =>
    }
  }

  /** A name that a component of a path can be. */
  predicate IsName(c: string) {
    0 < |c| <= MAXNAMLEN + 1 && forall k :: 0 <= k < |c| ==> c[k] != '/' && c[k] as int < 128
  }

  lemma {:induction false} NameScans(p: string, start: nat, i: nat, end: nat)
    requires start <= i <= end <= |p| && end - start <= MAXNAMLEN + 1 && (end < |p| ==> p[end] == '/')
    requires forall k :: i <= k < end ==> p[k] != '/' && p[k] as int < 128
    ensures ScanComponent(p, start, i) == End(end)
    decreases end - i
  {
    if i < end { NameScans(p, start, i + 1, end); }
  }

  function Slashes(n: nat): string { seq(n, _ => '/') }

  /** A path written as names, each after one or more slashes. */
  datatype Part = Part(slashes: nat, name: string)

  function PathOf(parts: seq<Part>): (p: string)
    ensures p != [] && (forall i :: 0 <= i < |parts| ==> parts[i].slashes > 0) ==> p[0] == '/'
  {
    if parts == [] then [] else Slashes(parts[0].slashes) + parts[0].name + PathOf(parts[1..])
  }

  ghost predicate GoodParts(parts: seq<Part>) {
    forall i :: 0 <= i < |parts| ==> parts[i].slashes > 0 && IsName(parts[i].name)
  }

  lemma PathSplits(parts: seq<Part>)
    requires GoodParts(parts) && parts != []
    ensures var p, start, end := PathOf(parts), parts[0].slashes, parts[0].slashes + |parts[0].name|;
      end <= |p| && SkipSlashes(p, 0) == start && ScanComponent(p, start, start) == End(end) &&
      p[start..end] == parts[0].name && p[end..] == PathOf(parts[1..])
  {
    var p, name, rest := PathOf(parts), parts[0].name, PathOf(parts[1..]);
    var start, end := parts[0].slashes, parts[0].slashes + |name|;
    assert p == Slashes(start) + name + rest;
    assert p[start..end] == name && p[end..] == rest;
    assert forall k :: start <= k < end ==> p[k] == name[k - start];
    assert forall k :: 0 <= k < start ==> p[k] == '/';
    assert p[start] == name[0] && (end < |p| ==> p[end] == rest[0]);
    NameScans(p, start, start, end);
  }

  /** Following names one by one through directories. */
  function Descend(w: World, cur: nat, parts: seq<Part>): Outcome
    decreases |parts|
  {
    if parts == [] then Found(cur)
    else if !w.node(cur).Directory? then Failed(NotDirectory)
    else match w.Lookup(cur, parts[0].name)
      case None => Failed(NoEntry)
      case Some(node) => Descend(w, node, parts[1..])
  }

  /** No link is met on the way. */
  predicate Plain(w: World, cur: nat, parts: seq<Part>)
    decreases |parts|
  {
    parts == [] || w.Lookup(cur, parts[0].name).None? ||
    var node := w.Lookup(cur, parts[0].name).value; !w.node(node).Link? && Plain(w, node, parts[1..])
  }

  /** Where no link is met, a path means its names followed one by one, however many slashes separate
      them and whatever the bound on links. */
  lemma {:induction false} PathMeansItsNames(w: World, root: nat, cur: nat, parts: seq<Part>, links: nat)
    requires Plain(w, cur, parts) && GoodParts(parts)
    ensures Resolve(w, root, cur, PathOf(parts), links) == Descend(w, cur, parts)
    decreases |parts|
  {
    if parts != [] {
      PathSplits(parts);
      var found := w.Lookup(cur, parts[0].name);
      if w.node(cur).Directory? && found.Some? {
        PathMeansItsNames(w, root, found.value, parts[1..], links);
      }
    }
  }

  /** Where a path begins: on the device it names, at the root, or at the directory it is relative to. */
  function From(w: World, root: nat, dir: nat, p: string, links: nat): Outcome {
    if DevPrefix(p) then OnDevice(w, p[5..], links) else Resolve(w, root, if "/" <= p then root else dir, p, links)
  }

  lemma RestartIsFrom(w: World, root: nat, dir: nat, p: string, links: nat)
    ensures Restart(w, root, dir, p, links) == From(w, root, dir, p, links)
  {
    if p != [] && p[0] == '/' { assert p[..1] == "/"; }
    if DevPrefix(p) { assert p[0] == p[..5][0]; }
  }

  /** A link stands for its text: a path through a link means what the text followed by the rest of the path
      means, begun as the text begins, with one link less to follow. */
  lemma LinkStandsForText(w: World, root: nat, dir: nat, n: nat, name: string, rest: string, links: nat)
    requires IsName(name) && (rest == [] || rest[0] == '/') && w.node(dir).Directory? && links > 0
    requires w.Lookup(dir, name).Some? && w.node(w.Lookup(dir, name).value).Link?
    ensures var text := w.node(w.Lookup(dir, name).value).text;
            Resolve(w, root, dir, Slashes(n) + name + rest, links) ==
            if |text| + |rest| + 1 >= MAXPATHLEN - 1 then Failed(NameTooLong)
            else From(w, root, dir, text + rest, links - 1)
  {
    var p, end := Slashes(n) + name + rest, n + |name|;
    var node := w.Lookup(dir, name).value;
    assert p[n..end] == name && p[end..] == rest && p[n] == name[0] && (end < |p| ==> p[end] == rest[0]);
    assert forall k :: n <= k < end ==> p[k] == name[k - n];
    assert forall k :: 0 <= k < n ==> p[k] == '/';
    NameScans(p, n, n, end);
    assert Resolve(w, root, dir, p, links) == Enter(w, root, dir, node, rest, links);
    RestartIsFrom(w, root, dir, w.node(node).text + rest, links - 1);
  }

  /** A link that leads to itself is given up on after the bound, whatever the bound. */
  lemma {:induction false} SelfLinkLoops(w: World, root: nat, dir: nat, name: string, links: nat)
    requires IsName(name) && w.node(dir).Directory? && w.Lookup(dir, name).Some?
    requires w.node(w.Lookup(dir, name).value) == Link(name)
    ensures Resolve(w, root, dir, name, links) == Failed(SymlinkLoop)
    decreases links
  {
    NameScans(name, 0, 0, |name|);
    assert name[0..|name|] == name && name[|name|..] == [] && name + [] == name;
    var node := w.Lookup(dir, name).value;
    assert Resolve(w, root, dir, name, links) == Enter(w, root, dir, node, [], links);
    if links > 0 {
      assert Enter(w, root, dir, node, [], links) == Restart(w, root, dir, name, links - 1);
      SelfLinkLoops(w, root, dir, name, links - 1);
    }
  }
}
