/** The saved-résumé list of the dashboard (client/src/pages/Dashboard.jsx):
    pages fetched one résumé at a time and appended, preview images loaded
    per résumé, the infinite-scroll page guard, deletion, and the share link
    built after a verified payment. The HTTP replies and the scroll position
    are parameters; the image loads are returned as requests the caller
    completes with `OnImageLoaded`. */
module Dashboard {
  import opened Common
  import opened ResumeDraft
  import opened ResumeForm
  import ResumeServer

  /** `const limit = 1`: résumés per page. */
  const Limit: nat := 1

  /** The body of a list reply. */
  datatype ListReply = ListReply(resumes: seq<CvData>, hasMore: bool)

  /** An image to fetch for a card: the résumé id and the stored path. */
  datatype ImageFetch = ImageFetch(id: string, path: string)

  /** `cv.personal?.image` */
  function ImageOf(cv: CvData): Field {
    if cv.personal.Some? then Get(cv.personal.value, "image") else Absent
  }

  /** The image request for one card: only for a truthy path under `/uploads`. */
  function FetchFor(cv: CvData): (r: seq<ImageFetch>)
    ensures |r| <= 1
    ensures |r| == 1 <==> Truthy(ImageOf(cv)) && StartsWith(ImageOf(cv).s, "/uploads")
    ensures |r| == 1 ==> r[0] == ImageFetch(cv.id, ImageOf(cv).s)
  {
    var img := ImageOf(cv);
    if Truthy(img) && StartsWith(img.s, "/uploads") then [ImageFetch(cv.id, img.s)] else []
  }

  /** The image requests of a page of résumés, in order. */
  function ImageFetches(cvs: seq<CvData>): seq<ImageFetch>
    decreases |cvs|
  {
    if cvs == [] then [] else ImageFetches(cvs[..|cvs| - 1]) + FetchFor(cvs[|cvs| - 1])
  }

  /** Every image request is for a card of the page and an `/uploads` path;
      every card with such a path is requested. */
  lemma {:induction false} ImageFetchesExact(cvs: seq<CvData>)
    ensures forall f :: f in ImageFetches(cvs) ==>
      StartsWith(f.path, "/uploads") && exists k :: 0 <= k < |cvs| && cvs[k].id == f.id && ImageOf(cvs[k]) == Str(f.path)
    ensures forall k :: 0 <= k < |cvs| && Truthy(ImageOf(cvs[k])) && StartsWith(ImageOf(cvs[k]).s, "/uploads") ==>
      ImageFetch(cvs[k].id, ImageOf(cvs[k]).s) in ImageFetches(cvs)
    decreases |cvs|
  {
    if cvs != [] {
      var init, last := cvs[..|cvs| - 1], cvs[|cvs| - 1];
      ImageFetchesExact(init);
      forall f | f in ImageFetches(cvs)
        ensures StartsWith(f.path, "/uploads") && exists k :: 0 <= k < |cvs| && cvs[k].id == f.id && ImageOf(cvs[k]) == Str(f.path)
      {
        if f in ImageFetches(init) {
          var k :| 0 <= k < |init| && init[k].id == f.id && ImageOf(init[k]) == Str(f.path);
          assert cvs[k] == init[k];
        } else {
          assert f in FetchFor(last);
          assert cvs[|cvs| - 1] == last;
        }
      }
      forall k | 0 <= k < |cvs| && Truthy(ImageOf(cvs[k])) && StartsWith(ImageOf(cvs[k]).s, "/uploads")
        ensures ImageFetch(cvs[k].id, ImageOf(cvs[k]).s) in ImageFetches(cvs)
      {
        if k < |init| {
          assert cvs[k] == init[k];
        }
      }
    }
  }

  /** `prev.filter((cv) => cv._id !== id)` */
  function RemoveId(cvs: seq<CvData>, id: string): (r: seq<CvData>)
    ensures |r| <= |cvs|
    ensures forall k :: 0 <= k < |r| ==> r[k].id != id && r[k] in cvs
    decreases |cvs|
  {
    if cvs == [] then []
    else
      var rest := RemoveId(cvs[..|cvs| - 1], id);
      if cvs[|cvs| - 1].id == id then rest else rest + [cvs[|cvs| - 1]]
  }

  lemma {:induction false} RemoveIdConcat(a: seq<CvData>, b: seq<CvData>, id: string)
    ensures RemoveId(a + b, id) == RemoveId(a, id) + RemoveId(b, id)
    decreases |b|
  {
    if b == [] {
      assert a + b == a;
    } else {
      assert (a + b)[..|a + b| - 1] == a + b[..|b| - 1];
      RemoveIdConcat(a, b[..|b| - 1], id);
    }
  }

  /** Deletion keeps every other résumé: with `RemoveId`'s own contract and
      `RemoveIdConcat`, the result is exactly the résumés whose id differs, in
      their order. */
  lemma {:induction false} RemoveIdKeepsOthers(cvs: seq<CvData>, id: string)
    ensures forall c :: c in cvs && c.id != id ==> c in RemoveId(cvs, id)
    decreases |cvs|
  {
    if cvs != [] {
      var init, last := cvs[..|cvs| - 1], cvs[|cvs| - 1];
      RemoveIdKeepsOthers(init, id);
      forall c | c in cvs && c.id != id
        ensures c in RemoveId(cvs, id)
      {
        if c != last {
          var k :| 0 <= k < |cvs| && cvs[k] == c;
          assert k < |init| && init[k] == c;
        }
      }
    }
  }

  /** Deleting an id no card has changes nothing. */
  lemma {:induction false} RemoveIdAbsent(cvs: seq<CvData>, id: string)
    requires forall k :: 0 <= k < |cvs| ==> cvs[k].id != id
    ensures RemoveId(cvs, id) == cvs
    decreases |cvs|
  {
    if cvs != [] {
      RemoveIdAbsent(cvs[..|cvs| - 1], id);
      assert cvs == cvs[..|cvs| - 1] + [cvs[|cvs| - 1]];
    }
  }

  /** Deleting twice is deleting once. */
  lemma RemoveIdIdempotent(cvs: seq<CvData>, id: string)
    ensures RemoveId(RemoveId(cvs, id), id) == RemoveId(cvs, id)
  {
    RemoveIdAbsent(RemoveId(cvs, id), id);
  }

  /** The share action's `resumeId`; the download action sends `null`. */
  datatype Action = Download | Share

  /** The body sent to `/api/payment/verify` after checkout. */
  datatype VerifyBody = VerifyBody(orderId: string, paymentId: string, signature: string, resumeId: Field)

  function VerifyRequest(action: Action, cv: CvData, orderId: string, paymentId: string, signature: string): (b: VerifyBody)
    ensures b.orderId == orderId && b.paymentId == paymentId && b.signature == signature
    ensures action == Download ==> !Truthy(b.resumeId)
    ensures action == Share ==> b.resumeId == Str(cv.id)
  {
    VerifyBody(orderId, paymentId, signature, if action == Share then Str(cv.id) else Absent)
  }

  /** `${window.location.origin}/shared/${shareToken}` */
  function ShareUrl(origin: string, token: Field): (u: string)
    ensures StartsWith(u, origin + "/shared/")
  {
    origin + "/shared/" + Interp(token)
  }

  /** The token can be read back from the link: the route `/shared/:token`
      sees exactly the token the server issued. */
  lemma ShareUrlRoundTrip(origin: string, token: string)
    ensures ShareUrl(origin, Str(token))[|origin| + 8..] == token
  {
    assert ShareUrl(origin, Str(token)) == (origin + "/shared/") + token;
  }

  /** `${cv.personal?.name || "resume"}.pdf`: the name the downloaded PDF is
      saved under. */
  function DownloadName(cv: CvData): (n: string)
    ensures |n| >= 4 && n[|n| - 4..] == ".pdf"
    ensures cv.personal.None? ==> n == "resume.pdf"
  {
    OrElse(if cv.personal.Some? then Get(cv.personal.value, "name") else Absent, "resume") + ".pdf"
  }

  /** The client saves the PDF under the file name the server announces for
      the same personal record. */
  lemma DownloadNameMatchesServer(cv: CvData, c: ResumeServer.Content)
    requires cv.personal == Some(c.draft.personal)
    ensures DownloadName(cv) == ResumeServer.PdfFileName(c)
  {
  }

  /** A PDF to fetch from `/api/resume/:id/download` and save under `filename`. */
  datatype PdfSave = PdfSave(id: string, filename: string)

  /** The dashboard's state. */
  class DashboardState {
    var cvList: seq<CvData>
    var cvImages: map<string, string>
    var loading: bool
    var page: nat
    var hasMore: bool
    var shareOpen: bool
    var shareUrl: string

    constructor ()
      ensures cvList == [] && cvImages == map[] && loading && page == 1 && hasMore
      ensures !shareOpen && shareUrl == ""
    {
      cvList := [];
      cvImages := map[];
      loading := true;
      page := 1;
      hasMore := true;
      shareOpen := false;
      shareUrl := "";
    }

    /** The list request for the current page. */
    function ListPath(): string
      reads this
    {
      "/api/resume?page=" + NatToString(page) + "&limit=" + NatToString(Limit)
    }

    /** `fetchCVs`, with `reply` the server's answer (None when the request
        fails). Returns the image requests it starts. */
    method FetchCVs(reply: Option<ListReply>) returns (request: Option<string>, fetches: seq<ImageFetch>)
      modifies this
      ensures !old(hasMore) ==> request.None? && fetches == [] && unchanged(this)
      ensures old(hasMore) ==> request == Some(old(ListPath())) && !loading
      ensures old(hasMore) && reply.Some? ==>
        && cvList == old(cvList) + reply.value.resumes
        && hasMore == reply.value.hasMore
        && fetches == ImageFetches(reply.value.resumes)
      ensures old(hasMore) && reply.None? ==> cvList == old(cvList) && hasMore && fetches == []
      ensures page == old(page) && cvImages == old(cvImages)
      ensures shareOpen == old(shareOpen) && shareUrl == old(shareUrl)
    {
      if !hasMore {
        return None, [];
      }
      loading := true;
      request := Some(ListPath());
      fetches := [];
      if reply.Some? {
        var resumes := reply.value.resumes;
        cvList := cvList + resumes;
        var i := 0;
        while i < |resumes|
          invariant 0 <= i <= |resumes|
          invariant fetches == ImageFetches(resumes[..i])
        {
          assert resumes[..i + 1][..i] == resumes[..i];
          var cv := resumes[i];
          var img := ImageOf(cv);
          if Truthy(img) && StartsWith(img.s, "/uploads") {
            fetches := fetches + [ImageFetch(cv.id, img.s)];
          }
          i := i + 1;
        }
        assert resumes[..i] == resumes;
        hasMore := reply.value.hasMore;
      }
      loading := false;
    }

    /** The FileReader result for one card's image. */
    method OnImageLoaded(id: string, dataUrl: string)
      modifies this
      ensures cvImages == old(cvImages)[id := dataUrl]
      ensures cvList == old(cvList) && loading == old(loading) && page == old(page) && hasMore == old(hasMore)
      ensures shareOpen == old(shareOpen) && shareUrl == old(shareUrl)
    {
      cvImages := cvImages[id := dataUrl];
    }

    /** The scroll listener: the next page only near the bottom, while not
        loading and while there is more. */
    method HandleScroll(nearBottom: bool)
      modifies this
      ensures page == if nearBottom && !loading && hasMore then old(page) + 1 else old(page)
      ensures cvList == old(cvList) && cvImages == old(cvImages) && loading == old(loading) && hasMore == old(hasMore)
      ensures shareOpen == old(shareOpen) && shareUrl == old(shareUrl)
    {
      if nearBottom && !loading && hasMore {
        page := page + 1;
      }
    }

    /** `handleDelete`: nothing without confirmation; the card list changes
        only when the server deleted. */
    method HandleDelete(id: string, confirmed: bool, deleted: bool) returns (request: Option<string>)
      modifies this
      ensures !confirmed ==> request.None? && cvList == old(cvList)
      ensures confirmed ==> request == Some("/api/resume/" + id)
      ensures cvList == if confirmed && deleted then RemoveId(old(cvList), id) else old(cvList)
      ensures cvImages == old(cvImages) && loading == old(loading) && page == old(page) && hasMore == old(hasMore)
      ensures shareOpen == old(shareOpen) && shareUrl == old(shareUrl)
    {
      if !confirmed {
        return None;
      }
      request := Some("/api/resume/" + id);
      if deleted {
        cvList := RemoveId(cvList, id);
      }
    }

    /** The verify reply for card `cv`: a successful share opens the share
        dialog with the link; a successful download fetches that card's PDF
        and saves it under `DownloadName(cv)`. */
    method OnVerifyResponse(cv: CvData, action: Action, success: bool, token: Field, origin: string) returns (save: Option<PdfSave>)
      modifies this
      ensures success && action == Share ==> shareOpen && shareUrl == ShareUrl(origin, token)
      ensures !(success && action == Share) ==> shareOpen == old(shareOpen) && shareUrl == old(shareUrl)
      ensures save == (if success && action == Download then Some(PdfSave(cv.id, DownloadName(cv))) else None)
      ensures cvList == old(cvList) && cvImages == old(cvImages) && loading == old(loading)
      ensures page == old(page) && hasMore == old(hasMore)
    {
      save := None;
      if success && action == Download {
        save := Some(PdfSave(cv.id, DownloadName(cv)));
      }
      if success && action == Share {
        shareOpen := true;
        shareUrl := ShareUrl(origin, token);
      }
    }
  }
}
