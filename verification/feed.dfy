/**
 * The product feed as `loadProductData` sees it once the XML is parsed: a
 * sequence of entries, each carrying the vendor-namespaced `id` and `price`.
 */
module Feed {
  import opened Wrappers

  datatype Entry = Entry(id: string, price: string)

  /** Position of the first entry whose id equals `id`, compared exactly
      (PHP `===`, so case-sensitive), scanning in feed order. */
  function FirstMatch(feed: seq<Entry>, id: string): (r: Option<nat>)
    ensures r.Some? ==> r.value < |feed| && feed[r.value].id == id
    ensures r.Some? ==> forall j :: 0 <= j < r.value ==> feed[j].id != id
    ensures r.None? <==> forall j :: 0 <= j < |feed| ==> feed[j].id != id
  {
    if |feed| == 0 then None
    else if feed[0].id == id then Some(0)
    else match FirstMatch(feed[1..], id)
      case None => None
      case Some(k) => Some(k + 1)
  }

  /** `loadProductData`: the first entry in feed order whose id is `id`, or
      none when no entry carries it. */
  function LoadProductData(feed: seq<Entry>, id: string): (r: Option<Entry>)
    ensures r.None? <==> forall e :: e in feed ==> e.id != id
    ensures r.Some? ==> r.value.id == id
    ensures r.Some? ==> exists i :: 0 <= i < |feed| && feed[i] == r.value
                                    && forall j :: 0 <= j < i ==> feed[j].id != id
  {
    match FirstMatch(feed, id)
    case None => None
    case Some(i) => Some(feed[i])
  }

  /** First-match semantics: an entry earlier in the feed shadows every later
      entry with the same id, and a feed without the id defers to what follows. */
  lemma {:induction false} LoadProductDataAppend(front: seq<Entry>, back: seq<Entry>, id: string)
    ensures LoadProductData(front + back, id)
         == if LoadProductData(front, id).Some? then LoadProductData(front, id)
            else LoadProductData(back, id)
  {
    if |front| == 0 {
      assert front + back == back;
    } else {
      assert (front + back)[1..] == front[1..] + back;
      LoadProductDataAppend(front[1..], back, id);
      if front[0].id != id {
        assert FirstMatch(front + back, id).Some? == FirstMatch(front[1..] + back, id).Some?;
      }
    }
  }
}
