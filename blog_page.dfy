/** The "Latest Blogs" page (`AllBlog`): the fetched list shown four at a
    time, Previous/Next paging, and the like and comment updates that
    replace one blog's list after the server answers. */
module BlogPage {
  import opened JsBuiltins

  /** The part of a listed blog the page reads and updates. The like and
      comment arrays are kept as the server sends them. */
  datatype Card = Card(id: string, title: string, likes: seq<string>, comments: seq<string>)

  const BlogsPerPage: int := 4

  function Min(a: int, b: int): int {
    if a < b then a else b
  }

  // ---------------------------------------------------------------------
  // Paging

  /** `blogs.slice(page * 4 - 4, page * 4)`: for every page from 1 on, the
      run of at most four blogs starting at `(page - 1) * 4`. */
  function PageOf(blogs: seq<Card>, page: int): (r: seq<Card>)
    ensures page >= 1 ==>
              r == blogs[Min((page - 1) * BlogsPerPage, |blogs|)..Min(page * BlogsPerPage, |blogs|)]
    ensures page >= 1 ==> |r| <= BlogsPerPage
  {
    var last := page * BlogsPerPage;
    JsSlice(blogs, last - BlogsPerPage, last)
  }

  /** Every blog is shown on exactly the page its position divided by four
      names, at the remainder. */
  lemma BlogOnItsPage(blogs: seq<Card>, i: int)
    requires 0 <= i < |blogs|
    ensures var page := PageOf(blogs, i / BlogsPerPage + 1);
            i % BlogsPerPage < |page| && page[i % BlogsPerPage] == blogs[i]
  {
  }

  /** The Previous button is disabled on the first page. */
  predicate PrevDisabled(page: int) {
    page == 1
  }

  /** The Next button is disabled once the current page reaches the end. */
  predicate NextDisabled(page: int, count: int) {
    page * BlogsPerPage >= count
  }

  /** `Math.max(prev - 1, 1)`: never below the first page, and standing
      still exactly where the button is disabled. */
  function PrevPage(page: int): (q: int)
    ensures q >= 1
    ensures page >= 1 ==> (q == page <==> PrevDisabled(page))
    ensures page > 1 ==> q == page - 1
  {
    if page - 1 > 1 then page - 1 else 1
  }

  /** Next moves one page on while the current one does not reach the end,
      and stands still exactly where the button is disabled. */
  function NextPage(page: int, count: int): (q: int)
    ensures q == page || q == page + 1
    ensures q == page <==> NextDisabled(page, count)
  {
    if page * BlogsPerPage < count then page + 1 else page
  }

  /** A page the pager can stand on: the first one, or one that starts
      inside the list. */
  predicate PageInRange(page: int, count: int) {
    page >= 1 && (page == 1 || (page - 1) * BlogsPerPage < count)
  }

  /** Previous and Next keep the pager on a page that exists. */
  lemma PagingStaysInRange(page: int, count: int)
    requires PageInRange(page, count)
    ensures PageInRange(PrevPage(page), count)
    ensures PageInRange(NextPage(page, count), count)
  {
  }

  /** A page the pager stands on shows at least one blog whenever there are
      any; in particular a page reached by Next is never empty. */
  lemma PageInRangeNotEmpty(blogs: seq<Card>, page: int)
    requires PageInRange(page, |blogs|) && blogs != []
    ensures PageOf(blogs, page) != []
  {
  }

  // ---------------------------------------------------------------------
  // Like and comment updates

  /** The ids of a list, in order. */
  function Ids(blogs: seq<Card>): seq<string> {
    seq(|blogs|, i requires 0 <= i < |blogs| => blogs[i].id)
  }

  /** The `map` after a like: the blog with that id gets the returned
      like array; everything else, and the order, stays. */
  function WithLikes(blogs: seq<Card>, id: string, likes: seq<string>): (r: seq<Card>)
    ensures |r| == |blogs| && Ids(r) == Ids(blogs)
    ensures forall i :: 0 <= i < |r| ==>
              r[i].title == blogs[i].title && r[i].comments == blogs[i].comments
    ensures forall i :: 0 <= i < |r| ==> r[i].likes == (if blogs[i].id == id then likes else blogs[i].likes)
  {
    seq(|blogs|, i requires 0 <= i < |blogs| =>
      if blogs[i].id == id then blogs[i].(likes := likes) else blogs[i])
  }

  /** The `map` after a comment: the blog with that id gets the returned
      comment array; everything else, and the order, stays. */
  function WithComments(blogs: seq<Card>, id: string, comments: seq<string>): (r: seq<Card>)
    ensures |r| == |blogs| && Ids(r) == Ids(blogs)
    ensures forall i :: 0 <= i < |r| ==>
              r[i].title == blogs[i].title && r[i].likes == blogs[i].likes
    ensures forall i :: 0 <= i < |r| ==>
              r[i].comments == (if blogs[i].id == id then comments else blogs[i].comments)
  {
    seq(|blogs|, i requires 0 <= i < |blogs| =>
      if blogs[i].id == id then blogs[i].(comments := comments) else blogs[i])
  }

  /** A like or comment for an id not on the list changes nothing. */
  lemma UnknownIdChangesNothing(blogs: seq<Card>, id: string, likes: seq<string>, comments: seq<string>)
    requires id !in Ids(blogs)
    ensures WithLikes(blogs, id, likes) == blogs
    ensures WithComments(blogs, id, comments) == blogs
  {
    assert forall i :: 0 <= i < |blogs| ==> Ids(blogs)[i] == blogs[i].id;
  }

  /** The comment check: a comment is sent only when the blog's input
      exists and holds something besides white space. */
  function CommentAccepted(inputs: map<string, string>, id: string): (ok: bool)
    ensures ok <==> id in inputs && !AllTrimmable(inputs[id])
  {
    id in inputs && inputs[id] != [] && Trim(inputs[id]) != []
  }

  // ---------------------------------------------------------------------
  // The component's state

  class AllBlog {
    var blogs: seq<Card>
    var currentPage: int
    var commentInputs: map<string, string>

    ghost predicate Valid()
      reads this
    {
      PageInRange(currentPage, |blogs|)
    }

    /** The blogs on the current page. */
    function CurrentBlogs(): (r: seq<Card>)
      reads this
      requires Valid()
      ensures r == PageOf(blogs, currentPage)
      ensures |r| <= BlogsPerPage
      ensures blogs != [] ==> r != []
    {
      var page := PageOf(blogs, currentPage);
      if blogs == [] then page
      else
        PageInRangeNotEmpty(blogs, currentPage);
        page
    }

    constructor ()
      ensures Valid()
      ensures blogs == [] && currentPage == 1 && commentInputs == map[]
    {
      blogs, currentPage, commentInputs := [], 1, map[];
    }

    /** The mount fetch: a 200 answer becomes the list. It runs while the
        list is still empty, so the pager is still on the first page. */
    method Loaded(status: int, data: seq<Card>)
      requires Valid() && blogs == []
      modifies this`blogs
      ensures Valid()
      ensures blogs == if status == 200 then data else old(blogs)
    {
      if status == 200 {
        blogs := data;
      }
    }

    method Previous()
      requires Valid()
      modifies this`currentPage
      ensures Valid()
      ensures currentPage == PrevPage(old(currentPage))
    {
      PagingStaysInRange(currentPage, |blogs|);
      currentPage := if currentPage - 1 > 1 then currentPage - 1 else 1;
    }

    method Next()
      requires Valid()
      modifies this`currentPage
      ensures Valid()
      ensures currentPage == NextPage(old(currentPage), |blogs|)
    {
      PagingStaysInRange(currentPage, |blogs|);
      var indexOfLastBlog := currentPage * BlogsPerPage;
      if indexOfLastBlog < |blogs| {
        currentPage := currentPage + 1;
      }
    }

    /** A like: on a 200 answer the blog's likes become the returned ones. */
    method LikeBlog(id: string, status: int, likes: seq<string>)
      requires Valid()
      modifies this`blogs
      ensures Valid()
      ensures blogs == if status == 200 then WithLikes(old(blogs), id, likes) else old(blogs)
    {
      if status == 200 {
        blogs := WithLikes(blogs, id, likes);
      }
    }

    method HandleCommentChange(id: string, value: string)
      modifies this`commentInputs
      ensures commentInputs == old(commentInputs)[id := value]
    {
      commentInputs := commentInputs[id := value];
    }

    /** A comment: a blank input is refused and nothing is sent; otherwise
        the text is sent, and on a 200 answer the blog's comments become the
        returned ones and only that blog's input is cleared. */
    method SubmitComment(id: string, status: int, comments: seq<string>) returns (sent: Option<string>)
      requires Valid()
      modifies this`blogs, this`commentInputs
      ensures Valid()
      ensures sent == if CommentAccepted(old(commentInputs), id) then Some(old(commentInputs)[id]) else None
      ensures sent.Some? && status == 200 ==>
                blogs == WithComments(old(blogs), id, comments) && commentInputs == old(commentInputs)[id := ""]
      ensures sent.None? || status != 200 ==> blogs == old(blogs) && commentInputs == old(commentInputs)
    {
      if !(id in commentInputs && commentInputs[id] != []) || Trim(commentInputs[id]) == [] {
        return None;
      }
      sent := Some(commentInputs[id]);
      if status == 200 {
        blogs := WithComments(blogs, id, comments);
        commentInputs := commentInputs[id := ""];
      }
    }
  }
}
