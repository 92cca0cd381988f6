/** The admin panel (`AdminDashboard`): the list of every blog, the
    signed-in admin's own blogs and their count, the owner filter, and the
    bookkeeping after a delete. */
module AdminDashboard {
  import opened JsBuiltins
  import opened AppRoutes

  /** The part of a listed blog the panel reads; `userId` is the owner's id
      as a string. */
  datatype AdminBlog = AdminBlog(id: string, title: string, userId: string)

  /** `blog.userId === uid` */
  function OwnedBy(uid: string): AdminBlog -> bool {
    (b: AdminBlog) => b.userId == uid
  }

  /** `blog._id !== blogId` */
  function NotId(blogId: string): AdminBlog -> bool {
    (b: AdminBlog) => b.id != blogId
  }

  /** The blogs of one owner: exactly those of the list with that owner,
      each as often as it occurs, in their order. */
  function MineOf(all: seq<AdminBlog>, uid: string): (r: seq<AdminBlog>)
    ensures forall i :: 0 <= i < |r| ==> r[i].userId == uid
    ensures forall b :: b in r <==> b in all && b.userId == uid
    ensures forall b :: multiset(r)[b] == if b.userId == uid then multiset(all)[b] else 0
    ensures IsSubsequence(r, all)
  {
    Filter(all, OwnedBy(uid))
  }

  /** The list after deleting `blogId`: everything else, as often as it
      occurs, in order. */
  function WithoutBlog(blogs: seq<AdminBlog>, blogId: string): (r: seq<AdminBlog>)
    ensures forall i :: 0 <= i < |r| ==> r[i].id != blogId
    ensures forall b :: b in r <==> b in blogs && b.id != blogId
    ensures forall b :: multiset(r)[b] == if b.id != blogId then multiset(blogs)[b] else 0
    ensures IsSubsequence(r, blogs)
  {
    Filter(blogs, NotId(blogId))
  }

  /** The shown list: everything for "all", the admin's own blogs for
      "mine", and otherwise the blogs whose owner is the filter value. */
  function Filtered(all: seq<AdminBlog>, mine: seq<AdminBlog>, filter: string): (r: seq<AdminBlog>)
    ensures filter == "all" ==> r == all
    ensures filter == "mine" ==> r == mine
    ensures filter != "all" && filter != "mine" ==>
              && (forall b :: b in r <==> b in all && b.userId == filter)
              && (forall b :: multiset(r)[b] == if b.userId == filter then multiset(all)[b] else 0)
              && IsSubsequence(r, all)
  {
    if filter == "all" then all
    else if filter == "mine" then mine
    else MineOf(all, filter)
  }

  /** No id occurs twice. */
  predicate DistinctIds(blogs: seq<AdminBlog>) {
    forall i, j :: 0 <= i < j < |blogs| ==> blogs[i].id != blogs[j].id
  }

  predicate Listed(blogs: seq<AdminBlog>, blogId: string) {
    exists i :: 0 <= i < |blogs| && blogs[i].id == blogId
  }

  /** Filtering a list with distinct ids leaves distinct ids. */
  lemma {:induction false} FilterKeepsDistinct(blogs: seq<AdminBlog>, p: AdminBlog -> bool)
    requires DistinctIds(blogs)
    ensures DistinctIds(Filter(blogs, p))
  {
    if blogs != [] {
      var rest := blogs[1..];
      assert DistinctIds(rest) by {
        forall i, j | 0 <= i < j < |rest| ensures rest[i].id != rest[j].id {
          assert rest[i] == blogs[i + 1] && rest[j] == blogs[j + 1];
        }
      }
      FilterKeepsDistinct(rest, p);
      if p(blogs[0]) {
        HeadNotInRest(blogs, p);
        ConsDistinct(blogs[0], Filter(rest, p));
      }
    }
  }

  /** The first id of a list with distinct ids is not among the ids that a
      filter keeps from the rest. */
  lemma HeadNotInRest(blogs: seq<AdminBlog>, p: AdminBlog -> bool)
    requires blogs != [] && DistinctIds(blogs)
    ensures forall k :: 0 <= k < |Filter(blogs[1..], p)| ==> Filter(blogs[1..], p)[k].id != blogs[0].id
  {
  }

  lemma ConsDistinct(x: AdminBlog, r: seq<AdminBlog>)
    requires DistinctIds(r)
    requires forall k :: 0 <= k < |r| ==> r[k].id != x.id
    ensures DistinctIds([x] + r)
  {
  }

  /** Deleting a listed id from a list with distinct ids removes exactly
      one blog. */
  lemma DeleteListedDropsOne(blogs: seq<AdminBlog>, blogId: string)
    requires DistinctIds(blogs) && Listed(blogs, blogId)
    ensures |WithoutBlog(blogs, blogId)| == |blogs| - 1
  {
    var k :| 0 <= k < |blogs| && blogs[k].id == blogId;
    forall i | 0 <= i < |blogs| && i != k ensures NotId(blogId)(blogs[i]) {
      if i < k {
        assert blogs[i].id != blogs[k].id;
      } else {
        assert blogs[k].id != blogs[i].id;
      }
    }
    FilterDropsOne(blogs, NotId(blogId), k);
  }

  /** Deleting from the whole list and then taking the admin's own blogs is
      deleting from the admin's own blogs. */
  lemma DeleteCommutesWithMine(all: seq<AdminBlog>, uid: string, blogId: string)
    ensures MineOf(WithoutBlog(all, blogId), uid) == WithoutBlog(MineOf(all, uid), blogId)
  {
    FilterCommutes(all, NotId(blogId), OwnedBy(uid));
  }

  /** The filter value equal to the admin's own id shows the same list as
      "mine" whenever the own list is derived from the whole list. */
  lemma OwnIdFilterIsMine(all: seq<AdminBlog>, uid: string)
    requires uid != "all" && uid != "mine"
    ensures Filtered(all, MineOf(all, uid), uid) == Filtered(all, MineOf(all, uid), "mine")
  {
  }

  // ---------------------------------------------------------------------
  // The owner as the whole-list answer delivers it

  /** A blog's `userId` as the panel receives it. The whole-list query
      populates it into the owner's `{ _id, name, email }`, or into null
      when the owner is gone; the panel's comparisons expect the id text. */
  datatype OwnerValue = OwnerText(text: string) | OwnerObject(ownerId: string, name: string, email: string) | OwnerNull

  /** A blog of the whole-list answer, with its owner as delivered. */
  datatype ListedBlog = ListedBlog(id: string, title: string, owner: OwnerValue)

  /** `blog.userId === uid`: strict equality never holds between an object
      (or null) and a string. */
  function StrictEqualsText(v: OwnerValue, uid: string): bool {
    match v
    case OwnerText(t) => t == uid
    case OwnerObject(_, _, _) => false
    case OwnerNull => false
  }

  /** `String(blog.userId)` */
  function JsString(v: OwnerValue): string {
    match v
    case OwnerText(t) => t
    case OwnerObject(_, _, _) => "[object Object]"
    case OwnerNull => "null"
  }

  /** The answer as the whole-list query gives it: every owner populated. */
  predicate OwnersPopulated(all: seq<ListedBlog>) {
    forall i :: 0 <= i < |all| ==> !all[i].owner.OwnerText?
  }

  /** "mine" as written: `data.filter((blog) => blog.userId === user._id)`. */
  function AsWrittenMine(all: seq<ListedBlog>, uid: string): seq<ListedBlog> {
    Filter(all, (b: ListedBlog) => StrictEqualsText(b.owner, uid))
  }

  /** A per-user filter as written: `String(blog.userId) === String(selectedFilter)`. */
  function AsWrittenOwnerFilter(all: seq<ListedBlog>, filter: string): seq<ListedBlog> {
    Filter(all, (b: ListedBlog) => JsString(b.owner) == filter)
  }

  /** On a populated answer, as written, "mine" is always empty, and so is
      the list for any user picked in the select (a user id has 24
      characters). */
  lemma PopulatedOwnersNeverMatch(all: seq<ListedBlog>, uid: string, filter: string)
    requires OwnersPopulated(all)
    requires |filter| == 24
    ensures AsWrittenMine(all, uid) == []
    ensures AsWrittenOwnerFilter(all, filter) == []
  {
    FilterKeepsNone(all, (b: ListedBlog) => StrictEqualsText(b.owner, uid));
    forall i | 0 <= i < |all| ensures JsString(all[i].owner) != filter {
      assert |JsString(all[i].owner)| != 24;
    }
    FilterKeepsNone(all, (b: ListedBlog) => JsString(b.owner) == filter);
  }

  /** A concrete case: the admin's own blog, with its owner populated, is
      missing from "mine" as written and present as intended. */
  lemma OwnBlogMissingFromMine(uid: string, blog: ListedBlog)
    requires blog.owner.OwnerObject? && blog.owner.ownerId == uid
    ensures AsWrittenMine([blog], uid) == [] && CorrectedMine([blog], uid) == [blog]
  {
    PopulatedOwnersNeverMatch([blog], uid, "aaaaaaaaaaaaaaaaaaaaaaaa");
    assert CorrectedMine([blog], uid) == [blog] + CorrectedMine([], uid);
  }

  /** The owner's id however it is delivered: the populated `_id`, the
      text itself, or none. */
  function OwnerIdOf(v: OwnerValue): string {
    match v
    case OwnerText(t) => t
    case OwnerObject(ownerId, _, _) => ownerId
    case OwnerNull => ""
  }

  /** The blog as the panel's state keeps it: the owner reduced to its id. */
  function AsAdminBlog(b: ListedBlog): AdminBlog {
    AdminBlog(b.id, b.title, OwnerIdOf(b.owner))
  }

  function AdminBlogs(all: seq<ListedBlog>): (r: seq<AdminBlog>)
    ensures |r| == |all|
  {
    if all == [] then [] else [AsAdminBlog(all[0])] + AdminBlogs(all[1..])
  }

  /** "mine" and the per-user filter as evidently intended: compare the
      owner's id, so exactly the blogs whose owner has that id are kept,
      each as often as it occurs, in order. */
  function CorrectedMine(all: seq<ListedBlog>, uid: string): (r: seq<ListedBlog>)
    ensures forall b :: b in r <==> b in all && OwnerIdOf(b.owner) == uid
    ensures forall b :: multiset(r)[b] == if OwnerIdOf(b.owner) == uid then multiset(all)[b] else 0
    ensures IsSubsequence(r, all)
  {
    Filter(all, (b: ListedBlog) => OwnerIdOf(b.owner) == uid)
  }

  /** The corrected comparison is the one the panel's state uses: reducing
      each owner to its id and then taking the user's blogs gives the same
      list as taking them first. */
  lemma {:induction false} CorrectedMineIsMineOf(all: seq<ListedBlog>, uid: string)
    ensures AdminBlogs(CorrectedMine(all, uid)) == MineOf(AdminBlogs(all), uid)
  {
    if all != [] {
      CorrectedMineIsMineOf(all[1..], uid);
      var p := (b: ListedBlog) => OwnerIdOf(b.owner) == uid;
      assert AdminBlogs(all)[0] == AsAdminBlog(all[0]);
      assert AdminBlogs(all)[1..] == AdminBlogs(all[1..]);
      if p(all[0]) {
        assert CorrectedMine(all, uid) == [all[0]] + CorrectedMine(all[1..], uid);
        assert ([all[0]] + CorrectedMine(all[1..], uid))[1..] == CorrectedMine(all[1..], uid);
      } else {
        assert CorrectedMine(all, uid) == CorrectedMine(all[1..], uid);
      }
    }
  }

  // ---------------------------------------------------------------------
  // Mounting

  /** What the mount effect does. */
  datatype MountEffect = RedirectHome | FetchData

  /** Without a token or an admin user the panel sends the visitor to "/"
      and fetches nothing. */
  function OnMount(token: Option<string>, user: Option<SessionUser>): (e: MountEffect)
    ensures e == FetchData <==> HasToken(token) && IsAdmin(user)
  {
    if !HasToken(token) || !IsAdmin(user) then RedirectHome else FetchData
  }

  /** Behind the admin guard the panel's own redirect never fires: it
      fetches exactly when the guard renders it. */
  lemma MountBehindGuardFetches(token: Option<string>, user: Option<SessionUser>)
    ensures OnMount(token, user) == FetchData <==> AdminProtectedRoute(token, user) == RenderChild
  {
  }

  // ---------------------------------------------------------------------
  // The panel's state

  class AdminDashboardState {
    const userId: string
    var allBlogs: seq<AdminBlog>
    var myBlogs: seq<AdminBlog>
    var totalBlogs: int
    var selectedFilter: string

    /** The count is the length of the whole list, the own list is derived
        from it, and ids are distinct. */
    ghost predicate Valid()
      reads this
    {
      && totalBlogs == |allBlogs|
      && myBlogs == MineOf(allBlogs, userId)
      && DistinctIds(allBlogs)
    }

    constructor (uid: string)
      ensures Valid()
      ensures userId == uid && allBlogs == [] && myBlogs == [] && totalBlogs == 0 && selectedFilter == "all"
    {
      userId := uid;
      allBlogs, myBlogs, totalBlogs := [], [], 0;
      selectedFilter := "all";
    }

    /** The list shown under the current filter. */
    function FilteredBlogs(): (r: seq<AdminBlog>)
      reads this
      requires Valid()
      ensures r == Filtered(allBlogs, myBlogs, selectedFilter)
      ensures selectedFilter == "mine" ==> r == MineOf(allBlogs, userId)
      ensures forall b :: b in r ==> b in allBlogs
    {
      Filtered(allBlogs, myBlogs, selectedFilter)
    }

    /** The dashboard fetch: on success the list, its length and the admin's
        own blogs; on failure nothing changes. The list comes from the
        collection, whose ids are distinct. */
    method Load(succeeded: bool, data: seq<AdminBlog>)
      requires Valid()
      requires DistinctIds(data)
      modifies this`allBlogs, this`myBlogs, this`totalBlogs
      ensures Valid()
      ensures succeeded ==> allBlogs == data && totalBlogs == |data| && myBlogs == MineOf(data, userId)
      ensures !succeeded ==> allBlogs == old(allBlogs) && myBlogs == old(myBlogs) && totalBlogs == old(totalBlogs)
    {
      if !succeeded {
        return;
      }
      allBlogs := data;
      totalBlogs := |data|;
      myBlogs := MineOf(data, userId);
    }

    method HandleFilterChange(value: string)
      modifies this`selectedFilter
      ensures selectedFilter == value
    {
      selectedFilter := value;
    }

    /** A delete: unless the admin confirms and the request succeeds nothing
        changes; otherwise the id leaves both lists and the count drops by
        one. The state stays consistent when the id was on the list. */
    method HandleDelete(blogId: string, confirmed: bool, succeeded: bool)
      requires Valid()
      modifies this`allBlogs, this`myBlogs, this`totalBlogs
      ensures confirmed && succeeded ==>
                && allBlogs == WithoutBlog(old(allBlogs), blogId)
                && myBlogs == WithoutBlog(old(myBlogs), blogId)
                && totalBlogs == old(totalBlogs) - 1
      ensures !(confirmed && succeeded) ==>
                allBlogs == old(allBlogs) && myBlogs == old(myBlogs) && totalBlogs == old(totalBlogs)
      ensures Listed(old(allBlogs), blogId) || !(confirmed && succeeded) ==> Valid()
    {
      if !confirmed || !succeeded {
        return;
      }
      if Listed(allBlogs, blogId) {
        DeleteListedDropsOne(allBlogs, blogId);
      }
      DeleteCommutesWithMine(allBlogs, userId, blogId);
      FilterKeepsDistinct(allBlogs, NotId(blogId));
      allBlogs := WithoutBlog(allBlogs, blogId);
      myBlogs := WithoutBlog(myBlogs, blogId);
      totalBlogs := totalBlogs - 1;
    }
  }
}
