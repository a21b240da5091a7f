/**
 Finding a volume by name in a listing that the cloud hands out page by page.  The verdict is shown
 to depend on the volumes alone, not on how the listing is cut into pages.
 */
module VolumeListing {
  import opened Status

  datatype VolumeModel = VolumeModel(id: string, name: string, sizeGB: int)

  datatype Page = Page(volumes: seq<VolumeModel>, isTruncated: bool, nextMarker: string)

  datatype Verdict =
    | Found(volume: VolumeModel)
    | Missing
    | MultiVolumes
    | ListFailed

  /** The service's side of one listing: page i is asked for with markers[i], and the cloud may fail
      to deliver it.  The first marker is the empty string. */
  datatype Listing = Listing(pages: seq<seq<VolumeModel>>, markers: seq<string>, fails: set<nat>) {

    ghost predicate Valid() {
      && |pages| == |markers| > 0
      && markers[0] == ""
      && forall i, j | 0 <= i < j < |markers| :: markers[i] != markers[j]
    }

    predicate Delivers() {
      forall i | 0 <= i < |pages| :: i !in fails
    }

    function Reply(i: nat): Option<Page>
      requires i < |pages| == |markers|
    {
      if i in fails then None
      else Some(Page(pages[i], i + 1 < |pages|, if i + 1 < |pages| then markers[i + 1] else ""))
    }

    // ListCDSVolume: the page that a marker asks for.
    function List(marker: string): (reply: Option<Page>)
      requires Valid() && marker in markers
      ensures exists i :: 0 <= i < |markers| && markers[i] == marker && reply == Reply(i)
    {
      var i :| 0 <= i < |markers| && markers[i] == marker;
      Reply(i)
    }

    lemma ListAt(i: nat)
      requires Valid() && i < |pages|
      ensures List(markers[i]) == Reply(i)
    {}
  }

  function Flatten(pages: seq<seq<VolumeModel>>): seq<VolumeModel> {
    if pages == [] then [] else pages[0] + Flatten(pages[1..])
  }

  function Named(volumes: seq<VolumeModel>, name: string): seq<VolumeModel> {
    if volumes == [] then []
    else
      var last := volumes[|volumes| - 1];
      Named(volumes[..|volumes| - 1], name) + (if last.name == name then [last] else [])
  }

  // What one unpaged listing would say.
  function Judge(volumes: seq<VolumeModel>, name: string): Verdict {
    var matches := Named(volumes, name);
    if |matches| == 0 then Missing
    else if |matches| > 1 then MultiVolumes
    else Found(matches[0])
  }

  lemma {:induction false} FlattenAppends(a: seq<seq<VolumeModel>>, page: seq<VolumeModel>)
    ensures Flatten(a + [page]) == Flatten(a) + page
  {
    if a == [] {
      assert [page][1..] == [];
    } else {
      FlattenAppends(a[1..], page);
      assert (a + [page])[1..] == a[1..] + [page];
    }
  }

  lemma NamedNext(before: seq<VolumeModel>, volumes: seq<VolumeModel>, i: nat, name: string)
    requires i < |volumes|
    ensures Named(before + volumes[..i + 1], name)
         == Named(before + volumes[..i], name) + (if volumes[i].name == name then [volumes[i]] else [])
  {
    assert before + volumes[..i + 1] == before + volumes[..i] + [volumes[i]];
  }

  lemma PageNext(pages: seq<seq<VolumeModel>>, p: nat)
    requires p < |pages|
    ensures Flatten(pages[..p + 1]) == Flatten(pages[..p]) + pages[p]
  {
    FlattenAppends(pages[..p], pages[p]);
    assert pages[..p + 1] == pages[..p] + [pages[p]];
  }

  // The matches among the first p pages.
  ghost function Matches(pages: seq<seq<VolumeModel>>, p: nat, name: string): seq<VolumeModel>
    requires p <= |pages|
  {
    Named(Flatten(pages[..p]), name)
  }

  lemma MatchesAll(pages: seq<seq<VolumeModel>>, name: string)
    ensures Matches(pages, 0, name) == [] && Named(Flatten(pages), name) == Matches(pages, |pages|, name)
  {
    assert pages[..|pages|] == pages && pages[..0] == [];
  }

  // The matches of one page, appended to those of the pages before.
  method AppendNamed(found: seq<VolumeModel>, page: seq<VolumeModel>, name: string,
                     ghost pages: seq<seq<VolumeModel>>, ghost p: nat)
    returns (volumes: seq<VolumeModel>)
    requires p < |pages| && page == pages[p]
    requires found == Matches(pages, p, name)
    ensures volumes == Matches(pages, p + 1, name)
  {
    volumes := found;
    ghost var before := Flatten(pages[..p]);
    assert before + page[..0] == before;
    for i := 0 to |page|
      invariant volumes == Named(before + page[..i], name)
    {
      NamedNext(before, page, i, name);
      if page[i].name == name {
        volumes := volumes + [page[i]];
      }
    }
    assert page[..|page|] == page;
    PageNext(pages, p);
  }

  // The loop over the pages: all matches, or nothing when a page cannot be had.
  method CollectByName(listing: Listing, name: string) returns (matches: Option<seq<VolumeModel>>)
    requires listing.Valid()
    ensures matches.Some? <==> listing.Delivers()
    ensures matches.Some? ==> matches.value == Named(Flatten(listing.pages), name)
  {
    var marker := "";
    var volumes: seq<VolumeModel> := [];
    ghost var p: nat := 0;
    MatchesAll(listing.pages, name);
    while true
      invariant 0 <= p < |listing.pages| && marker == listing.markers[p]
      invariant volumes == Matches(listing.pages, p, name)
      invariant forall i | 0 <= i < p :: i !in listing.fails
      decreases |listing.pages| - p
    {
      var reply := listing.List(marker);
      listing.ListAt(p);
      if reply.None? {
        return None;
      }
      var page := reply.value;
      volumes := AppendNamed(volumes, page.volumes, name, listing.pages, p);
      if !page.isTruncated {
        return Some(volumes);
      }
      marker := page.nextMarker;
      p := p + 1;
    }
  }

  // The verdict, over what the cloud lists and not over how: the pages are judged as one listing,
  // and a page that cannot be had decides otherwise.
  method GetVolumeByName(listing: Listing, name: string) returns (verdict: Verdict)
    requires listing.Valid()
    ensures verdict == if listing.Delivers() then Judge(Flatten(listing.pages), name) else ListFailed
  {
    var matches := CollectByName(listing, name);
    if matches.None? {
      return ListFailed;
    }
    var volumes := matches.value;
    if |volumes| == 0 {
      return Missing;
    }
    if |volumes| > 1 {
      return MultiVolumes;
    }
    return Found(volumes[0]);
  }

  predicate NamedAt(volumes: seq<VolumeModel>, i: int, name: string) {
    0 <= i < |volumes| && volumes[i].name == name
  }

  // The three verdicts in the terms of the listing itself: none, exactly one, or at least two of the
  // listed entries have the name.
  lemma {:induction false} JudgeMeans(volumes: seq<VolumeModel>, name: string)
    ensures Judge(volumes, name) == Missing <==> forall i :: !NamedAt(volumes, i, name)
    ensures Judge(volumes, name) == MultiVolumes <==>
              exists i, j :: i < j && NamedAt(volumes, i, name) && NamedAt(volumes, j, name)
    ensures forall v :: Judge(volumes, name) == Found(v) ==>
              exists i :: NamedAt(volumes, i, name) && volumes[i] == v
  {
    if volumes == [] {
    } else {
      var n := |volumes| - 1;
      var front := volumes[..n];
      JudgeMeans(front, name);
      assert forall i | i != n :: NamedAt(volumes, i, name) == NamedAt(front, i, name);
      if volumes[n].name == name {
        assert NamedAt(volumes, n, name);
        if |Named(front, name)| > 0 {
          var i :| NamedAt(front, i, name);
          assert NamedAt(volumes, i, name);
        }
      } else if Judge(volumes, name) == MultiVolumes {
        var i, j :| i < j && NamedAt(front, i, name) && NamedAt(front, j, name);
        assert NamedAt(volumes, i, name) && NamedAt(volumes, j, name);
      } else if Judge(volumes, name).Found? {
        var i :| NamedAt(front, i, name) && front[i] == Judge(volumes, name).volume;
        assert NamedAt(volumes, i, name);
      }
    }
  }

  // ---------- a listing that changes while its pages come in ----------

  // The volumes as they are listed when the pages are asked for, one set for each page; `pageOf` is the page
  // that a volume falls on, by the markers.
  function Gathered(moments: seq<set<VolumeModel>>, pageOf: VolumeModel -> nat): set<VolumeModel> {
    set i, v | 0 <= i < |moments| && v in moments[i] && pageOf(v) == i :: v
  }

  lemma {:induction false} ListedStays(moments: seq<set<VolumeModel>>, i: nat, j: nat)
    requires forall k | 0 < k < |moments| :: moments[k - 1] <= moments[k]
    requires i <= j < |moments|
    ensures moments[i] <= moments[j]
  {
    if i == j {
    } else {
      ListedStays(moments, i, j - 1);
    }
  }

  // Where volumes are only ever added to the listing, the pages together show all that was listed when the
  // first was asked for, and nothing that is not listed when the last one comes in.
  lemma PagesShowBetween(moments: seq<set<VolumeModel>>, pageOf: VolumeModel -> nat)
    requires |moments| > 0
    requires forall k | 0 < k < |moments| :: moments[k - 1] <= moments[k]
    requires forall v | v in moments[|moments| - 1] :: pageOf(v) < |moments|
    ensures moments[0] <= Gathered(moments, pageOf) <= moments[|moments| - 1]
  {
    forall v | v in moments[0] ensures v in Gathered(moments, pageOf) {
      ListedStays(moments, 0, |moments| - 1);
      ListedStays(moments, 0, pageOf(v));
    }
    forall v | v in Gathered(moments, pageOf) ensures v in moments[|moments| - 1] {
      ListedStays(moments, pageOf(v), |moments| - 1);
    }
  }
}
