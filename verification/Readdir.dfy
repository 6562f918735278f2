/**
The readdir page cache of an NFS client directory (bundle/fs/nfs/dir.c).

A server directory is a fixed listing; every entry carries a cookie that names the
position after it, and position zero has cookie zero.  The client caches the listing
in pages that the server fills in replies of any size, and serves getdents calls
from those pages, resuming from the cookie at which the previous call stopped.
 */
module Readdir {

  /** One entry of the server's listing. */
  datatype Dirent = Dirent(name: string, ino: nat, cookie: nat)

  /** struct nfs_cache_array_entry: the cookie is the one BEFORE the entry. */
  datatype CacheEntry = CacheEntry(cookie: nat, ino: nat, name: string)

  /** struct nfs_cache_array. */
  datatype Page = Page(entries: seq<CacheEntry>, lastCookie: nat, full: bool, eof: bool, ordered: bool)

  /** Results of the internal steps; Error stands for any other negative errno. */
  datatype Status = Ok | Again | BadCookie | Loop | NoSpace | Error

  // ---------------------------------------------------------------- the listing

  ghost predicate WellFormed(l: seq<Dirent>) {
    && (forall i :: 0 <= i < |l| ==> l[i].cookie != 0)
    && (forall i, j :: 0 <= i < j < |l| ==> l[i].cookie != l[j].cookie)
  }

  /** The cookie that stands for "the first k entries have been read". */
  function CookieAt(l: seq<Dirent>, k: nat): nat
    requires k <= |l|
  {
    if k == 0 then 0 else l[k-1].cookie
  }

  /** A cookie names one position only. */
  lemma CookieNamesPosition(l: seq<Dirent>, i: nat, j: nat)
    requires WellFormed(l) && i <= |l| && j <= |l|
    requires CookieAt(l, i) == CookieAt(l, j)
    ensures i == j
  {
  }

  function Cached(l: seq<Dirent>, k: nat): CacheEntry
    requires k < |l|
  {
    CacheEntry(CookieAt(l, k), l[k].ino, l[k].name)
  }

  /** A READDIR reply from position k: entries in order, at least one or the end mark. */
  ghost predicate IsReply(l: seq<Dirent>, k: nat, reply: seq<Dirent>, atEof: bool) {
    && k + |reply| <= |l|
    && (forall i :: 0 <= i < |reply| ==> reply[i] == l[k + i])
    && (atEof ==> k + |reply| == |l|)
    && (reply != [] || atEof)
  }

  // ---------------------------------------------------------------- pages

  /** Cookies rise strictly from position lo to position hi. */
  ghost predicate Rising(l: seq<Dirent>, lo: nat, hi: nat)
    requires lo <= hi <= |l|
    decreases hi
  {
    lo == hi || (Rising(l, lo, hi - 1) && CookieAt(l, hi - 1) < CookieAt(l, hi))
  }

  lemma {:induction false} RisingBetween(l: seq<Dirent>, lo: nat, hi: nat, i: nat, j: nat)
    requires lo <= i < j <= hi <= |l| && Rising(l, lo, hi)
    ensures CookieAt(l, i) < CookieAt(l, j)
    decreases hi
  {
    if j < hi {
      RisingBetween(l, lo, hi - 1, i, j);
    } else if i < hi - 1 {
      RisingBetween(l, lo, hi - 1, i, hi - 1);
    }
  }

  /** Page p caches the entries of l from position start on. */
  ghost predicate PageHolds(l: seq<Dirent>, p: Page, start: nat) {
    && start + |p.entries| <= |l|
    && (forall i :: 0 <= i < |p.entries| ==> p.entries[i] == Cached(l, start + i))
    && p.lastCookie == CookieAt(l, start + |p.entries|)
    && (p.ordered <==> Rising(l, start, start + |p.entries|))
    && (p.eof ==> p.full && start + |p.entries| == |l|)
    && (p.full && !p.eof ==> |p.entries| > 0)
  }

  /** nfs_readdir_page_init_array. */
  function EmptyPage(lastCookie: nat): Page {
    Page([], lastCookie, false, false, true)
  }

  /** The store done by nfs_readdir_add_to_array once there is room. */
  function Extend(p: Page, prevCookie: nat, e: Dirent): Page {
    p.(entries := p.entries + [CacheEntry(prevCookie, e.ino, e.name)],
       lastCookie := e.cookie,
       ordered := p.ordered && e.cookie > prevCookie)
  }

  lemma ExtendHolds(l: seq<Dirent>, p: Page, start: nat)
    requires PageHolds(l, p, start) && !p.full
    requires start + |p.entries| < |l|
    ensures var k := start + |p.entries|;
            PageHolds(l, Extend(p, CookieAt(l, k), l[k]), start)
  {
  }

  /** nfs_readdir_array_cookie_in_range. */
  predicate CookieInRange(p: Page, cookie: nat) {
    !p.ordered || !(cookie >= p.lastCookie || (|p.entries| > 0 && cookie < p.entries[0].cookie))
  }

  /** The shortcut for rising cookies never skips a page that holds the cookie, and skips those that cannot. */
  lemma ShortcutNeverSkips(l: seq<Dirent>, p: Page, start: nat, i: nat)
    requires PageHolds(l, p, start) && i < |p.entries|
    ensures CookieInRange(p, p.entries[i].cookie)
    ensures p.ordered ==> !CookieInRange(p, p.lastCookie)
    ensures p.ordered ==> forall c: nat :: c < p.entries[0].cookie ==> !CookieInRange(p, c)
  {
    if p.ordered {
      RisingBetween(l, start, start + |p.entries|, start + i, start + |p.entries|);
      if i > 0 {
        RisingBetween(l, start, start + |p.entries|, start, start + i);
      }
    }
  }

  /** A page holds the cookie of position k exactly when k lies in its range. */
  lemma PageFindsPosition(l: seq<Dirent>, p: Page, start: nat, k: nat, i: nat)
    requires WellFormed(l) && PageHolds(l, p, start) && k <= |l| && i < |p.entries|
    ensures p.entries[i].cookie == CookieAt(l, k) <==> k == start + i
  {
    if p.entries[i].cookie == CookieAt(l, k) {
      CookieNamesPosition(l, start + i, k);
    }
  }

  /** A page that covers position k is searched, and holds its cookie. */
  lemma SearchComplete(l: seq<Dirent>, p: Page, start: nat, k: nat)
    requires PageHolds(l, p, start) && start <= k < start + |p.entries|
    ensures CookieInRange(p, CookieAt(l, k)) && p.entries[k - start].cookie == CookieAt(l, k)
  {
    ShortcutNeverSkips(l, p, start, k - start);
  }

  // ---------------------------------------------------------------- chains of pages

  /** The number of entries cached in a run of pages: where the next page starts. */
  ghost function Total(pages: seq<Page>): nat {
    if pages == [] then 0 else Total(pages[..|pages| - 1]) + |pages[|pages| - 1].entries|
  }

  ghost predicate Closed(p: Page) {
    p.full && !p.eof
  }

  /** Every page continues where the one before it stops; only the last may be open or at the end. */
  ghost predicate Chain(l: seq<Dirent>, pages: seq<Page>) {
    pages == [] ||
    var init, last := pages[..|pages| - 1], pages[|pages| - 1];
    && Chain(l, init)
    && (init != [] ==> Closed(init[|init| - 1]))
    && PageHolds(l, last, Total(init))
  }

  lemma ChainReplaceLast(l: seq<Dirent>, pages: seq<Page>, p: Page)
    requires Chain(l, pages) && pages != [] && PageHolds(l, p, Total(pages[..|pages| - 1]))
    ensures var q := pages[|pages| - 1 := p];
            Chain(l, q) && q[..|q| - 1] == pages[..|pages| - 1] && Total(q) == Total(pages[..|pages| - 1]) + |p.entries|
  {
    var q := pages[|pages| - 1 := p];
    assert q[..|q| - 1] == pages[..|pages| - 1];
  }

  lemma ChainAppend(l: seq<Dirent>, pages: seq<Page>)
    requires Chain(l, pages)
    requires pages != [] ==> Closed(pages[|pages| - 1])
    ensures Total(pages) <= |l|
    ensures var q := pages + [EmptyPage(CookieAt(l, Total(pages)))];
            Chain(l, q) && q[..|q| - 1] == pages && Total(q) == Total(pages)
  {
    var q := pages + [EmptyPage(CookieAt(l, Total(pages)))];
    assert q[..|q| - 1] == pages;
  }

  /** What the chain says about page j. */
  lemma {:induction false} ChainAt(l: seq<Dirent>, pages: seq<Page>, j: nat)
    requires Chain(l, pages) && j < |pages|
    ensures PageHolds(l, pages[j], Total(pages[..j]))
    ensures Total(pages[..j+1]) == Total(pages[..j]) + |pages[j].entries|
    ensures j < |pages| - 1 ==> Closed(pages[j])
  {
    if j < |pages| - 1 {
      var init := pages[..|pages| - 1];
      ChainAt(l, init, j);
      assert init[..j] == pages[..j] && init[..j+1] == pages[..j+1];
    } else {
      assert pages[..j+1] == pages && pages[..j+1][..j] == pages[..j];
    }
  }

  // ---------------------------------------------------------------- open directories

  /** struct nfs_open_dir_context together with the file position. */
  class OpenDir {
    const useCookie: bool   // nfs_readdir_use_cookie
    var dirCookie: nat
    var dupCookie: nat
    var duped: int
    var pos: nat
    ghost var at: nat       // the position of the entry that comes next

    constructor (useCookie: bool)
      ensures this.useCookie == useCookie && at == 0
      ensures forall l :: WellFormed(l) ==> Valid(l)
    {
      this.useCookie := useCookie;
      dirCookie, dupCookie, duped, pos, at := 0, 0, 0, 0, 0;
    }

    ghost predicate Valid(l: seq<Dirent>)
      reads this
    {
      Stands(l, useCookie, dirCookie, pos, at)
    }

    /**
    nfs_llseek_dir to position k: with cookies the offset is the cookie that telldir gave for k, without them it is k
    itself, and may lie past the end. An offset that cannot be is refused and changes nothing.
    */
    method Seek(whence: Whence, offset: int, ghost l: seq<Dirent>, ghost k: nat) returns (r: int)
      requires WellFormed(l) && Valid(l)
      requires var t := Target(pos, whence, offset);
               t >= 0 ==> if useCookie then k <= |l| && CookieAt(l, k) == t else k == t
      modifies this
      ensures Valid(l) && dupCookie == old(dupCookie)
      ensures r == Target(old(pos), whence, offset)
      ensures r >= 0 ==> at == k && pos == r
      ensures r < 0 || r == old(pos) ==> at == old(at) && dirCookie == old(dirCookie) && duped == old(duped)
      ensures r >= 0 && r != old(pos) ==> duped == 0
    {
      var target := offset;
      match whence {
        case Other => return EINVAL;
        case Set =>
          if offset < 0 {
            return EINVAL;
          }
        case Cur =>
          target := offset + pos;
          if target < 0 {
            return EINVAL;
          }
      }
      if target != pos {
        pos := target;
        dirCookie := if useCookie then target else 0;
        duped, at := 0, k;
      } else if useCookie {
        CookieNamesPosition(l, at, k);
      }
      return target;
    }
  }

  const EINVAL: int := -22

  datatype Whence = Set | Cur | Other

  /** Where a seek goes. */
  function Target(pos: nat, whence: Whence, offset: int): (r: int)
    ensures r >= 0 || r == EINVAL
  {
    var t := if whence.Cur? then pos + offset else offset;
    if whence.Other? || t < 0 then EINVAL else t
  }

  /**
  A directory stream stands before entry `at`: it has the cookie of that place, or it has been moved there by number
  and has no cookie yet.
  */
  ghost predicate Stands(l: seq<Dirent>, useCookie: bool, dirCookie: nat, pos: nat, at: nat) {
    || (at <= |l| && dirCookie == CookieAt(l, at) && pos == if useCookie then dirCookie else at)
    || (!useCookie && dirCookie == 0 && pos == at)
  }

  /** struct nfs_readdir_descriptor: the state of one nfs_readdir call. */
  class Descriptor {
    const useCookie: bool
    var dirCookie: nat
    var dupCookie: nat
    var duped: int
    var pos: nat
    var pageIndex: nat
    var currentIndex: int
    var prevIndex: int
    var lastCookie: nat
    var cacheEntryIndex: nat
    var eof: bool
    ghost var at: nat

    constructor (f: OpenDir)
      ensures useCookie == f.useCookie && dirCookie == f.dirCookie && dupCookie == f.dupCookie
      ensures duped == f.duped && pos == f.pos && at == f.at
      ensures pageIndex == 0 && currentIndex == 0 && prevIndex == 0 && lastCookie == 0 && !eof
    {
      useCookie := f.useCookie;
      dirCookie, dupCookie, duped, pos, at := f.dirCookie, f.dupCookie, f.duped, f.pos, f.at;
      pageIndex, currentIndex, prevIndex, lastCookie, cacheEntryIndex, eof := 0, 0, 0, 0, 0, false;
    }

    /** The descriptor stands at a position of l and has scanned only pages before it. */
    ghost predicate Valid(l: seq<Dirent>, pages: seq<Page>)
      reads this
    {
      && pageIndex <= |pages|
      && Placed(l, Total(pages[..pageIndex]))
    }

    ghost predicate Placed(l: seq<Dirent>, start: nat)
      reads this
    {
      && start <= |l|
      && Stands(l, useCookie, dirCookie, pos, at)
      && currentIndex == start <= at
      && lastCookie == CookieAt(l, start)
      && prevIndex <= at
    }

    /** The search has found the entry at the descriptor's position in page p. */
    ghost predicate Found(p: Page)
      reads this
    {
      p.full && currentIndex <= at == currentIndex + cacheEntryIndex < currentIndex + |p.entries|
    }

    /** nfs_readdir_search_for_pos. */
    method SearchForPos(l: seq<Dirent>, ghost start: nat, p: Page) returns (status: Status)
      requires WellFormed(l) && Placed(l, start) && PageHolds(l, p, start) && p.full
      requires dirCookie == 0
      modifies this`dirCookie, this`cacheEntryIndex, this`eof
      ensures Placed(l, start)
      ensures status == Verdict(p, currentIndex, at)
      ensures status.Ok? ==> Found(p) && dirCookie == CookieAt(l, at)
      ensures eof == (old(eof) || status.BadCookie?)
    {
      if at <= |l| && CookieAt(l, at) == 0 {
        CookieNamesPosition(l, at, 0);
      }
      var diff := pos - currentIndex;
      if diff < 0 {
        assert false;
      }
      if diff >= |p.entries| {
        if p.eof {
          eof := true;
          return BadCookie;
        }
        return Again;
      }
      dirCookie := p.entries[diff].cookie;
      cacheEntryIndex := diff;
      return Ok;
    }

    /** nfs_readdir_search_for_cookie; `stale` is the attribute generation test. */
    method SearchForCookie(l: seq<Dirent>, ghost start: nat, p: Page, stale: bool) returns (status: Status)
      requires WellFormed(l) && Placed(l, start) && PageHolds(l, p, start) && p.full
      requires dirCookie != 0
      modifies this`duped, this`dupCookie, this`pos, this`prevIndex, this`cacheEntryIndex, this`eof
      ensures Placed(l, start)
      ensures status == Verdict(p, currentIndex, at)
      ensures status.Ok? ==> Found(p)
      ensures eof == (old(eof) || status.BadCookie?)
    {
      if at < currentIndex + |p.entries| {
        SearchComplete(l, p, currentIndex, at);
      }
      var i := 0;
      if CookieInRange(p, dirCookie) {
        while i < |p.entries|
          invariant 0 <= i <= |p.entries|
          invariant forall j :: 0 <= j < i ==> p.entries[j].cookie != dirCookie
          modifies {}
        {
          if p.entries[i].cookie == dirCookie {
            break;
          }
          i := i + 1;
        }
        if i < |p.entries| {
          PageFindsPosition(l, p, currentIndex, at, i);
          status := Hit(i, stale);
          return;
        }
      }
      if p.eof {
        if dirCookie == p.lastCookie {
          eof := true;
        }
        return BadCookie;
      }
      return Again;
    }

    /** The body of the search when entry i matches, with its detector of readdir loops. */
    method Hit(i: nat, stale: bool) returns (status: Status)
      requires currentIndex + i == at
      modifies this`duped, this`dupCookie, this`pos, this`prevIndex, this`cacheEntryIndex
      ensures status ==
              if !stale && at < old(prevIndex) && old(duped) > 0 && old(dupCookie) == dirCookie then Loop else Ok
      ensures status.Ok? ==> cacheEntryIndex == i && prevIndex == at && pos == (if useCookie then dirCookie else at)
      ensures status.Ok? ==> duped == if stale then 0 else if at < old(prevIndex) then -1 else old(duped)
      ensures status.Ok? && duped < 0 && at < old(prevIndex) ==> dupCookie == dirCookie
    {
      var newPos := currentIndex + i;
      if stale {
        duped := 0;
      } else if newPos < prevIndex {
        if duped > 0 && dupCookie == dirCookie {
          return Loop;
        }
        dupCookie := dirCookie;
        duped := -1;
      }
      pos := if useCookie then dirCookie else newPos;
      prevIndex := newPos;
      cacheEntryIndex := i;
      return Ok;
    }

    /** nfs_readdir_search_array on page p = pages[pageIndex]. */
    method SearchArray(l: seq<Dirent>, ghost start: nat, p: Page, stale: bool) returns (status: Status)
      requires WellFormed(l) && Placed(l, start) && PageHolds(l, p, start) && p.full
      modifies this
      ensures Placed(l, start + (if status.Again? then |p.entries| else 0)) && at == old(at)
      ensures status == Verdict(p, start, at)
      ensures status.Ok? ==> Found(p)
      ensures eof == (old(eof) || status.BadCookie?)
      ensures pageIndex == old(pageIndex) + (if status.Again? then 1 else 0)
    {
      if dirCookie == 0 {
        status := SearchForPos(l, start, p);
      } else {
        status := SearchForCookie(l, start, p, stale);
      }
      if status.Again? {
        lastCookie := p.lastCookie;
        currentIndex := currentIndex + |p.entries|;
        pageIndex := pageIndex + 1;
      }
    }

    /** One entry of page p has been taken. */
    method Advance(l: seq<Dirent>, ghost start: nat, p: Page, i: nat)
      requires Placed(l, start) && PageHolds(l, p, start) && i < |p.entries| && at == start + i
      modifies this`dirCookie, this`pos, this`duped, this`at
      ensures Placed(l, start) && at == old(at) + 1 && duped == if old(duped) == 0 then 0 else 1
    {
      dirCookie := if i < |p.entries| - 1 then p.entries[i + 1].cookie else p.lastCookie;
      pos := if useCookie then dirCookie else pos + 1;
      if duped != 0 {
        duped := 1;
      }
      at := at + 1;
    }

    /** The loop of nfs_do_filldir over page p. */
    method Emit(l: seq<Dirent>, ghost start: nat, p: Page, room: nat) returns (out: seq<CacheEntry>, left: nat)
      requires Placed(l, start) && PageHolds(l, p, start) && Found(p) && !eof
      modifies this`dirCookie, this`pos, this`duped, this`at, this`eof
      ensures Placed(l, start) && old(at) <= at <= |l|
      ensures out == Slice(l, old(at), at) && left == room - (at - old(at))
      ensures eof ==> left == 0 || at == |l|
      ensures !eof ==> at == start + |p.entries| && at > old(at) && !p.eof
    {
      out, left := [], room;
      var i := cacheEntryIndex;
      while i < |p.entries|
        invariant cacheEntryIndex <= i <= |p.entries|
        invariant Placed(l, start) && !eof && at == start + i >= old(at)
        invariant out == Slice(l, old(at), at) && left == room - (at - old(at))
      {
        if left == 0 {                                 // dir_emit refuses
          eof := true;
          break;
        }
        out := out + [p.entries[i]];
        left := left - 1;
        Advance(l, start, p, i);
        i := i + 1;
      }
      if p.eof {
        eof := true;
      }
    }
  }

  /** What a search of page p (starting at `start`) for position `at` must answer. */
  function Verdict(p: Page, start: int, at: nat): Status {
    if at < start + |p.entries| then Ok else if p.eof then BadCookie else Again
  }

  // ---------------------------------------------------------------- the cache

  class DirCache {
    const listing: seq<Dirent>   // what the server holds
    const capacity: nat          // entries that fit in one page
    const healthy: bool          // neither memory nor the server fails
    var pages: seq<Page>

    constructor (listing: seq<Dirent>, capacity: nat, healthy: bool)
      requires WellFormed(listing) && capacity >= 1
      ensures Valid() && this.listing == listing && pages == []
    {
      this.listing, this.capacity, this.healthy, pages := listing, capacity, healthy, [];
    }

    /** Whether a call for memory or to the server fails this time. */
    method Fails() returns (fails: bool)
      ensures healthy ==> !fails
    {
      fails := *;
      fails := fails && !healthy;
    }

    ghost predicate Valid()
      reads this
    {
      WellFormed(listing) && capacity >= 1 && Chain(listing, pages)
    }

    /** The cache ends in a page that still takes entries. */
    ghost predicate Open()
      reads this
    {
      pages != [] && !pages[|pages| - 1].full
    }

    /** The next position to be cached. */
    ghost function Next(): nat
      requires Valid()
      reads this
    {
      Total(pages)
    }

    /** The pages before the last one. */
    ghost function Init(): seq<Page>
      requires pages != []
      reads this
    {
      pages[..|pages| - 1]
    }

    /** The store into the last page shared by the methods below. */
    method Store(p: Page)
      requires Valid() && pages != [] && PageHolds(listing, p, Total(Init()))
      modifies this
      ensures Valid() && pages != [] && Init() == old(Init()) && pages[|pages| - 1] == p
      ensures Total(pages) == Total(Init()) + |p.entries|
    {
      ChainReplaceLast(listing, pages, p);
      pages := pages[|pages| - 1 := p];
    }

    /** nfs_readdir_page_get_locked for the page after the last one. */
    method NewPage(lastCookie: nat)
      requires Valid() && (pages != [] ==> Closed(pages[|pages| - 1]))
      requires Total(pages) <= |listing| && lastCookie == CookieAt(listing, Total(pages))
      modifies this
      ensures Valid() && Open() && Init() == old(pages)
      ensures Total(pages) == old(Total(pages))
    {
      ChainAppend(listing, pages);
      pages := pages + [EmptyPage(lastCookie)];
    }

    /** nfs_readdir_add_to_array on the last page: entry e, decoded after prevCookie. */
    method AddToArray(prevCookie: nat, e: Dirent) returns (status: Status)
      requires Valid() && Open() && Next() < |listing|
      requires e == listing[Next()] && prevCookie == CookieAt(listing, Next())
      modifies this
      ensures Valid() && pages != [] && Init() == old(Init())
      ensures status.Ok? || status.NoSpace? || status.Error?
      ensures healthy ==> !status.Error?
      ensures status.Ok? ==> Next() == old(Next()) + 1 && Open()
      ensures status.NoSpace? ==> Next() == old(Next()) && Closed(pages[|pages| - 1])
      ensures status.NoSpace? <==> !status.Error? && |old(pages)[|pages| - 1].entries| >= capacity
    {
      var p := pages[|pages| - 1];
      var fails := Fails();
      if fails {
        return Error;                                  // the name could not be copied
      }
      if |p.entries| + 1 > capacity {
        Store(p.(full := true));
        return NoSpace;
      }
      Append(prevCookie, e);
      return Ok;
    }

    /** The entry goes to the end of the last page. */
    method Append(prevCookie: nat, e: Dirent)
      requires Valid() && Open() && Next() < |listing|
      requires e == listing[Next()] && prevCookie == CookieAt(listing, Next())
      modifies this
      ensures Valid() && Open() && Init() == old(Init()) && Next() == old(Next()) + 1
    {
      var p := pages[|pages| - 1];
      ghost var start := Total(Init());
      assert Next() == start + |p.entries|;
      ExtendHolds(listing, p, start);
      Store(Extend(p, prevCookie, e));
    }

    /** nfs_readdir_page_set_eof on the last, still open page. */
    method SetEof()
      requires Valid() && Open() && Next() == |listing|
      modifies this
      ensures Valid() && pages != [] && Init() == old(Init()) && Next() == old(Next())
      ensures pages[|pages| - 1].full && pages[|pages| - 1].eof
    {
      Store(pages[|pages| - 1].(full := true, eof := true));
    }

    /** The server's READDIR: some entries after the cookie, or the end of the directory. */
    method ServerReaddir(cookie: nat, ghost k: nat) returns (reply: seq<Dirent>, atEof: bool)
      requires Valid() && k <= |listing| && cookie == CookieAt(listing, k)
      ensures IsReply(listing, k, reply, atEof)
    {
      var pos :| 0 <= pos <= |listing| && CookieAt(listing, pos) == cookie;
      CookieNamesPosition(listing, pos, k);
      if pos == |listing| {
        return [], true;
      }
      var m :| 0 < m <= |listing| - pos;               // as much as the reply buffer takes
      reply := listing[pos..pos + m];
      if pos + m < |listing| {
        atEof := false;
      } else {
        atEof := *;
      }
    }

    /** Add one entry to the last page, or to a fresh page when the last one is full. */
    method AddOrSpill(prevCookie: nat, e: Dirent) returns (status: Status)
      requires Valid() && Open() && Next() < |listing|
      requires e == listing[Next()] && prevCookie == CookieAt(listing, Next())
      modifies this
      ensures Valid() && |pages| >= |old(pages)| > 0 && pages[..|old(pages)| - 1] == old(Init())
      ensures status.Ok? || status.NoSpace? || status.Error?
      ensures healthy ==> status.Ok?
      ensures status.Ok? ==> Open() && Next() == old(Next()) + 1
      ensures status.NoSpace? ==> Closed(pages[|pages| - 1]) && |pages| == |old(pages)|
    {
      status := AddToArray(prevCookie, e);
      if status.NoSpace? {
        var fails := Fails();
        if fails {
          return;                                      // no page for the rest of the reply
        }
        ghost var init := Init();
        NewPage(prevCookie);
        assert Init()[..|init|] == pages[..|init|];
        status := AddToArray(prevCookie, e);
      }
    }

    /**
    nfs_readdir_page_filler: store the entries of one reply to `cookie`, spilling onto
    fresh pages, and note the end of the directory when the reply announces it.
     */
    method PageFiller(cookie: nat, reply: seq<Dirent>, atEof: bool) returns (status: Status)
      requires Valid() && Open() && IsReply(listing, Next(), reply, atEof) && cookie == CookieAt(listing, Next())
      modifies this
      ensures Valid() && |pages| >= |old(pages)| > 0 && pages[..|old(pages)| - 1] == old(Init())
      ensures status.Ok? || status.Error?
      ensures status.Ok? && !pages[|old(pages)| - 1].full ==> |pages| == |old(pages)| && Next() > old(Next())
      ensures healthy ==> status.Ok? && Next() == old(Next()) + |reply| && pages[|pages| - 1].full == atEof
    {
      ghost var n := |pages|;
      status := FillPages(cookie, reply, atEof);
      if status.Ok? && atEof {
        NoteEnd(n);
      }
      if status.NoSpace? {
        status := Ok;
      }
      if |pages| > n {
        ChainAt(listing, pages, n - 1);
      }
    }

    /** The loop over the entries of the reply. */
    method FillPages(cookie: nat, reply: seq<Dirent>, ghost atEof: bool) returns (status: Status)
      requires Valid() && Open() && IsReply(listing, Next(), reply, atEof) && cookie == CookieAt(listing, Next())
      modifies this
      ensures Valid() && |pages| >= |old(pages)| > 0 && pages[..|old(pages)| - 1] == old(Init())
      ensures status.Ok? || status.NoSpace? || status.Error?
      ensures healthy ==> status.Ok?
      ensures status.Ok? ==> Open() && Next() == old(Next()) + |reply|
      ensures status.NoSpace? ==> Closed(pages[|pages| - 1])
    {
      ghost var base, n := Next(), |pages|;
      var i, entryCookie := 0, cookie;
      while i < |reply|
        invariant 0 <= i <= |reply|
        invariant Valid() && Open() && |pages| >= n && pages[..n-1] == old(Init())
        invariant base + i == Next() && entryCookie == CookieAt(listing, Next())
      {
        var prevCookie := entryCookie;
        entryCookie := reply[i].cookie;
        ghost var m := |pages| - 1;
        status := AddOrSpill(prevCookie, reply[i]);
        assert pages[..n-1] == pages[..m][..n-1];
        if !status.Ok? {
          return;
        }
        i := i + 1;
      }
      return Ok;
    }

    /** SetEof, which leaves the pages before the last as they are. */
    method NoteEnd(ghost n: nat)
      requires Valid() && Open() && Next() == |listing| && 0 < n <= |pages|
      modifies this
      ensures Valid() && |pages| == |old(pages)| && pages[..n - 1] == old(pages[..n - 1])
      ensures pages[|pages| - 1].full && pages[|pages| - 1].eof && Next() == old(Next())
    {
      ghost var init := Init();
      SetEof();
      assert pages[..n - 1] == init[..n - 1];
    }

    /** nfs_readdir_xdr_to_array: ask the server until the page is closed. */
    method XdrToArray() returns (status: Status)
      requires Valid() && Open() && Next() <= |listing|
      modifies this
      ensures Valid() && |pages| >= |old(pages)| && pages[..|old(pages)| - 1] == old(Init())
      ensures status.Ok? || status.Error?
      ensures healthy ==> status.Ok?
      ensures status.Ok? ==> pages[|old(pages)| - 1].full
    {
      var page := |pages| - 1;
      while !pages[page].full
        invariant Valid() && page == |old(pages)| - 1 < |pages| && pages[..|old(pages)| - 1] == old(Init())
        invariant !pages[page].full ==> |pages| == |old(pages)|
        decreases if pages[page].full then 0 else 1 + |listing| - Next()
      {
        var fails := Fails();
        if fails {
          return Error;                                // the READDIR call failed
        }
        var cookie := pages[page].lastCookie;
        var reply, atEof := ServerReaddir(cookie, Next());
        status := PageFiller(cookie, reply, atEof);
        if status.Error? {
          return;
        }
      }
      return Ok;
    }

    /** Descriptor d may look at its page: the page exists or is the next to be made. */
    ghost predicate Ready(d: Descriptor)
      reads this, d
    {
      && Valid() && d.Valid(listing, pages)
      && (d.pageIndex == |pages| > 0 ==> Closed(pages[|pages| - 1]))
    }

    /** nfs_readdir_page_get_cached, filled from the server if it is still open. */
    method GetCached(d: Descriptor) returns (status: Status)
      requires Ready(d)
      modifies this
      ensures Ready(d)
      ensures status.Ok? || status.Error?
      ensures healthy ==> status.Ok?
      ensures status.Ok? ==> d.pageIndex < |pages| && pages[d.pageIndex].full
    {
      if d.pageIndex == |pages| {
        var fails := Fails();
        if fails {
          return Error;
        }
        assert pages[..d.pageIndex] == pages;
        NewPage(d.lastCookie);
        assert pages[..d.pageIndex] == Init();
      }
      ChainAt(listing, pages, d.pageIndex);
      status := Ok;
      if !pages[d.pageIndex].full {
        assert pages[..d.pageIndex + 1] == pages && pages[..d.pageIndex] == Init();
        status := XdrToArray();
      }
    }

    /** find_and_lock_cache_page. */
    method FindCachePage(d: Descriptor, stale: bool) returns (status: Status)
      requires Ready(d)
      modifies this, d
      ensures Ready(d) && d.at == old(d.at)
      ensures status.Ok? || status.Again? || status.BadCookie? || status.Error?
      ensures healthy ==> !status.Error?
      ensures status.Ok? ==> d.pageIndex < |pages| && d.Found(pages[d.pageIndex])
      ensures d.eof == (old(d.eof) || status.BadCookie?)
      ensures status.BadCookie? ==> d.at >= |listing|
      ensures status.Again? ==> d.currentIndex > old(d.currentIndex)
    {
      status := GetCached(d);
      if status.Ok? {
        status := SearchPage(d, stale);
      }
    }

    /** The search of the descriptor's page. */
    method SearchPage(d: Descriptor, stale: bool) returns (status: Status)
      requires Ready(d) && d.pageIndex < |pages| && pages[d.pageIndex].full
      modifies d
      ensures Ready(d) && d.at == old(d.at)
      ensures status.Ok? || status.Again? || status.BadCookie?
      ensures status.Ok? ==> d.pageIndex < |pages| && d.Found(pages[d.pageIndex])
      ensures d.eof == (old(d.eof) || status.BadCookie?)
      ensures status.BadCookie? ==> d.at >= |listing|
      ensures status.Again? ==> d.currentIndex > old(d.currentIndex)
    {
      ChainAt(listing, pages, d.pageIndex);
      ghost var j, start := d.pageIndex, Total(pages[..d.pageIndex]);
      var p := pages[d.pageIndex];
      status := d.SearchArray(listing, start, p, stale);
      assert d.pageIndex == if status.Again? then j + 1 else j;
      assert d.Valid(listing, pages);
    }

    /** readdir_search_pagecache. */
    method SearchPagecache(d: Descriptor) returns (status: Status)
      requires Ready(d)
      modifies this, d
      ensures Ready(d) && d.at == old(d.at)
      ensures status.Ok? || status.BadCookie? || status.Error?
      ensures healthy ==> !status.Error?
      ensures status.Ok? ==> d.pageIndex < |pages| && d.Found(pages[d.pageIndex])
      ensures d.eof == (old(d.eof) || status.BadCookie?)
      ensures status.BadCookie? ==> d.at >= |listing|
    {
      status := Again;
      while status.Again?
        invariant Ready(d) && d.at == old(d.at)
        invariant status.Ok? || status.Again? || status.BadCookie? || status.Error?
        invariant healthy ==> !status.Error?
        invariant status.Ok? ==> d.pageIndex < |pages| && d.Found(pages[d.pageIndex])
        invariant d.eof == (old(d.eof) || status.BadCookie?)
        invariant status.BadCookie? ==> d.at >= |listing|
        decreases if status.Again? then 1 + |listing| - d.currentIndex else 0
      {
        if d.pageIndex == 0 {
          d.currentIndex, d.prevIndex, d.lastCookie := 0, 0, 0;
        }
        var stale := *;
        status := FindCachePage(d, stale);
      }
    }

    /** nfs_do_filldir: emit entries of the page while the caller's buffer has room. */
    method DoFilldir(d: Descriptor, room: nat) returns (out: seq<CacheEntry>, left: nat)
      requires Ready(d) && !d.eof && d.pageIndex < |pages| && d.Found(pages[d.pageIndex])
      modifies d
      ensures Ready(d) && old(d.at) <= d.at <= |listing|
      ensures out == Slice(listing, old(d.at), d.at) && left == room - (d.at - old(d.at))
      ensures d.eof ==> left == 0 || d.at == |listing|
      ensures !d.eof ==> d.at > old(d.at)
    {
      ChainAt(listing, pages, d.pageIndex);
      out, left := d.Emit(listing, Total(pages[..d.pageIndex]), pages[d.pageIndex], room);
    }

    /**
    nfs_readdir: whatever the cache holds and however the server cuts its replies, a
    call that succeeds emits the next entries of the listing, as many as there is room
    for; a call that fails on the way has emitted some of them, and lost none.
     */
    method Readdir(f: OpenDir, room: nat) returns (ok: bool, out: seq<CacheEntry>)
      requires Valid() && f.Valid(listing)
      modifies this, f
      ensures Valid() && f.Valid(listing)
      ensures old(f.at) <= f.at <= Reach(listing, old(f.at), room) && out == Slice(listing, old(f.at), f.at)
      ensures (ok ==> f.at == Reach(listing, old(f.at), room)) && (healthy ==> ok)
    {
      var d := new Descriptor(f);
      out := [];
      var left := room;
      assert pages[..0] == [];
      ghost var k := d.at;
      ok := true;
      while !d.eof
        invariant fresh(d) && Ready(d) && d.useCookie == f.useCookie && k <= d.at && (d.at <= |listing| || d.at == k)
        invariant out == Slice(listing, k, d.at) && left == room - (d.at - k)
        invariant (d.eof ==> left == 0 || d.at == |listing|) && ok
        modifies this, d
        decreases !d.eof, |listing| - d.at
      {
        var status := SearchPagecache(d);
        if !status.Ok? {
          // the end of the directory, or an error; the uncached path is never taken
          ok := status.BadCookie?;
          break;
        }
        var more;
        ghost var mid := d.at;
        more, left := DoFilldir(d, left);
        SliceConcat(listing, k, mid, d.at);
        out := out + more;
      }
      f.dirCookie, f.dupCookie, f.duped, f.pos, f.at := d.dirCookie, d.dupCookie, d.duped, d.pos, d.at;
    }
  }

  // ---------------------------------------------------------------- whole runs

  /** A call on one of several open directories: getdents with room for so many entries, or a seek to a position. */
  datatype Call = Read(file: nat, room: nat) | Move(file: nat, to: nat)

  /** Where the first n calls of a run last moved file i. */
  function From(calls: seq<Call>, n: nat, i: nat): nat
    requires n <= |calls|
  {
    if n == 0 then 0 else if calls[n-1].Move? && calls[n-1].file == i then calls[n-1].to else From(calls, n - 1, i)
  }

  /** The room that the calls since then offered to file i. */
  function RoomFor(calls: seq<Call>, n: nat, i: nat): nat
    requires n <= |calls|
  {
    if n == 0 || (calls[n-1].Move? && calls[n-1].file == i) then 0
    else RoomFor(calls, n - 1, i) + (if calls[n-1].Read? && calls[n-1].file == i then calls[n-1].room else 0)
  }

  /** How far a reader gets in l from a position with the given room. */
  function Reach(l: seq<Dirent>, from: nat, room: nat): nat {
    if from + room <= |l| then from + room else if from <= |l| then |l| else from
  }

  /** File f has received, since it stood at `from`, exactly the entries between there and its position. */
  ghost predicate Served(l: seq<Dirent>, f: OpenDir, from: nat, out: seq<CacheEntry>)
    reads f
  {
    f.Valid(l) && from <= f.at && (f.at <= |l| || f.at == from) && out == Slice(l, from, f.at)
  }

  /** A call that can be made: a stream with cookies is moved only to places that have one. */
  ghost predicate Possible(l: seq<Dirent>, files: seq<OpenDir>, call: Call) {
    call.file < |files| && (call.Move? && files[call.file].useCookie ==> call.to <= |l|)
  }

  /** File i stands as far as the room offered since it was last moved goes. */
  ghost predicate OnTrack(l: seq<Dirent>, calls: seq<Call>, n: nat, i: nat, at: nat)
    requires n <= |calls|
  {
    at == Reach(l, From(calls, n, i), RoomFor(calls, n, i))
  }

  /** The call does not concern file i, or has this effect on it. */
  ghost predicate Moved(l: seq<Dirent>, call: Call, i: nat, at: nat, at': nat) {
    at' == if call.file != i then at else if call.Move? then call.to else Reach(l, at, call.room)
  }

  lemma TrackStays(l: seq<Dirent>, calls: seq<Call>, n: nat, i: nat, at: nat, at': nat)
    requires n < |calls| && OnTrack(l, calls, n, i, at) && Moved(l, calls[n], i, at, at')
    ensures OnTrack(l, calls, n + 1, i, at')
  {
  }

  /** One call of a stream that was last moved to `from`; a seek is to the cookie of the place or to its number. */
  method Serve(c: DirCache, f: OpenDir, ghost from: nat, out: seq<CacheEntry>, call: Call)
    returns (ok: bool, out': seq<CacheEntry>)
    requires c.Valid() && Served(c.listing, f, from, out) && (call.Move? && f.useCookie ==> call.to <= |c.listing|)
    modifies c, f
    ensures c.Valid() && Served(c.listing, f, if call.Move? then call.to else from, out') && (c.healthy ==> ok)
    ensures ok ==> Moved(c.listing, call, call.file, old(f.at), f.at)
  {
    match call {
      case Read(_, room) =>
        ghost var mid := f.at;
        var more;
        ok, more := c.Readdir(f, room);
        SliceConcat(c.listing, from, mid, f.at);
        out' := out + more;
      case Move(_, to) =>
        var offset := if f.useCookie then CookieAt(c.listing, to) else to;
        var _ := f.Seek(Set, offset, c.listing, to);
        ok, out' := true, [];
    }
  }

  /** The streams are different ones. */
  ghost predicate Apart(files: seq<OpenDir>) {
    forall i, j :: 0 <= i < j < |files| ==> files[i] != files[j]
  }

  /** Each has received what it should after n calls. */
  ghost predicate AllServed(l: seq<Dirent>, files: seq<OpenDir>, calls: seq<Call>, n: nat, outs: seq<seq<CacheEntry>>)
    requires n <= |calls|
    reads files
  {
    |outs| == |files| && forall i :: 0 <= i < |files| ==> Served(l, files[i], From(calls, n, i), outs[i])
  }

  /** Call n, which concerns one stream only. */
  method Dispatch(c: DirCache, files: seq<OpenDir>, calls: seq<Call>, n: nat, outs: seq<seq<CacheEntry>>)
    returns (ok: bool, outs': seq<seq<CacheEntry>>)
    requires n < |calls| && c.Valid() && AllServed(c.listing, files, calls, n, outs)
    requires Possible(c.listing, files, calls[n]) && Apart(files)
    modifies c, files
    ensures c.Valid() && AllServed(c.listing, files, calls, n + 1, outs') && (c.healthy ==> ok)
    ensures ok ==> forall i :: 0 <= i < |files| ==> Moved(c.listing, calls[n], i, old(files[i].at), files[i].at)
  {
    var who := calls[n].file;
    var out;
    ok, out := Serve(c, files[who], From(calls, n, who), outs[who], calls[n]);
    outs' := outs[who := out];
  }

  ghost predicate AllOnTrack(l: seq<Dirent>, files: seq<OpenDir>, calls: seq<Call>, n: nat)
    requires n <= |calls|
    reads files
  {
    forall i :: 0 <= i < |files| ==> OnTrack(l, calls, n, i, files[i].at)
  }

  /** The same call, with how far it gets. */
  method Step(c: DirCache, files: seq<OpenDir>, calls: seq<Call>, n: nat, outs: seq<seq<CacheEntry>>, ghost clean: bool)
    returns (ok: bool, outs': seq<seq<CacheEntry>>)
    requires n < |calls| && c.Valid() && AllServed(c.listing, files, calls, n, outs)
    requires Possible(c.listing, files, calls[n]) && Apart(files) && (clean ==> AllOnTrack(c.listing, files, calls, n))
    modifies c, files
    ensures c.Valid() && AllServed(c.listing, files, calls, n + 1, outs') && (c.healthy ==> ok)
    ensures clean && ok ==> AllOnTrack(c.listing, files, calls, n + 1)
  {
    ok, outs' := Dispatch(c, files, calls, n, outs);
    if clean && ok {
      forall i | 0 <= i < |files|
        ensures OnTrack(c.listing, calls, n + 1, i, files[i].at)
      {
        TrackStays(c.listing, calls, n, i, old(files[i].at), files[i].at);
      }
    }
  }

  /** Streams just opened. */
  ghost predicate Opened(l: seq<Dirent>, files: seq<OpenDir>)
    reads files
  {
    Apart(files) && forall i :: 0 <= i < |files| ==> files[i].Valid(l) && files[i].at == 0
  }

  lemma OpenedIsServed(l: seq<Dirent>, files: seq<OpenDir>, calls: seq<Call>, outs: seq<seq<CacheEntry>>)
    requires Opened(l, files) && |outs| == |files| && forall i :: 0 <= i < |outs| ==> outs[i] == []
    ensures AllServed(l, files, calls, 0, outs) && AllOnTrack(l, files, calls, 0)
  {
  }

  /**
  Exactly once, in order: any number of open directories share one cache and issue any
  interleaving of getdents calls with any room and of seeks.  Each has received, since it
  was last moved, exactly the entries from there to where it stands, and in a run without
  errors that is as far as the room it offered goes; there are none while neither memory
  nor the server fails.
   */
  method Run(c: DirCache, files: seq<OpenDir>, calls: seq<Call>) returns (outs: seq<seq<CacheEntry>>, clean: bool)
    requires c.Valid() && Opened(c.listing, files)
    requires forall n :: 0 <= n < |calls| ==> Possible(c.listing, files, calls[n])
    modifies c, files
    ensures c.Valid() && AllServed(c.listing, files, calls, |calls|, outs) && (c.healthy ==> clean)
    ensures clean ==> AllOnTrack(c.listing, files, calls, |calls|)
  {
    outs := seq(|files|, _ => []);
    OpenedIsServed(c.listing, files, calls, outs);
    outs, clean := RunOn(c, files, calls, outs);
  }

  /** The calls in turn. */
  method RunOn(c: DirCache, files: seq<OpenDir>, calls: seq<Call>, first: seq<seq<CacheEntry>>)
    returns (outs: seq<seq<CacheEntry>>, clean: bool)
    requires c.Valid() && AllServed(c.listing, files, calls, 0, first) && AllOnTrack(c.listing, files, calls, 0)
    requires Apart(files) && forall n :: 0 <= n < |calls| ==> Possible(c.listing, files, calls[n])
    modifies c, files
    ensures c.Valid() && AllServed(c.listing, files, calls, |calls|, outs) && (c.healthy ==> clean)
    ensures clean ==> AllOnTrack(c.listing, files, calls, |calls|)
  {
    outs, clean := first, true;
    for n := 0 to |calls|
      invariant c.Valid() && AllServed(c.listing, files, calls, n, outs) && (c.healthy ==> clean)
      invariant clean ==> AllOnTrack(c.listing, files, calls, n)
    {
      assert Possible(c.listing, files, calls[n]);
      var ok;
      ok, outs := Step(c, files, calls, n, outs, clean);
      clean := clean && ok;
    }
  }

  /** The cached form of the entries at positions lo..hi. */
  function Slice(l: seq<Dirent>, lo: nat, hi: nat): (s: seq<CacheEntry>)
    requires lo <= hi && (hi <= |l| || lo == hi)
    ensures |s| == hi - lo
    decreases hi
  {
    if lo == hi then [] else Slice(l, lo, hi - 1) + [Cached(l, hi - 1)]
  }

  lemma {:induction false} SliceConcat(l: seq<Dirent>, lo: nat, mid: nat, hi: nat)
    requires lo <= mid <= hi && (hi <= |l| || lo == hi)
    ensures Slice(l, lo, hi) == Slice(l, lo, mid) + Slice(l, mid, hi)
    decreases hi
  {
    if mid < hi {
      SliceConcat(l, lo, mid, hi - 1);
    }
  }
}
