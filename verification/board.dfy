/** The `/orders` handler: fetch outcomes for the listed order ids are
    classified one after another and gathered into the `ready` and
    `progress` lists of the JSON response. A failed detail fetch is logged
    and contributes nothing; a failed login or order listing turns the whole
    response into an error. */
module Board {
  import opened Wrappers
  import opened Orders
  import opened Classifier
  import TokenCache

  datatype ReadyEntry = ReadyEntry(name: string, number: string)
  datatype ProgressEntry = ProgressEntry(name: string, number: string, statusTime: string)
  datatype Board = Board(ready: seq<ReadyEntry>, progress: seq<ProgressEntry>)

  const EmptyBoard: Board := Board([], [])

  datatype FetchError = FetchError(message: string)

  /** One listed id's detail fetch: its outcome and the clock reading
      (`Date.now()`) taken when that order is classified. */
  datatype Fetch = Fetch(outcome: Result<Order, FetchError>, nowMs: int)

  /** How one fetch is classified; a failed fetch is as good as skipped. */
  function Outcome(f: Fetch, allow: set<string>): (c: Classification)
    ensures f.outcome.Failure? ==> c.Skipped?
    ensures f.outcome.Success? ==> c == Classify(f.outcome.value, allow, f.nowMs)
  {
    match f.outcome
    case Failure(_) => Skipped
    case Success(o) => Classify(o, allow, f.nowMs)
  }

  /** The classification of every fetch, in fetch order. */
  function Outcomes(fs: seq<Fetch>, allow: set<string>): (cs: seq<Classification>)
    ensures |cs| == |fs|
    ensures forall i :: 0 <= i < |fs| ==> cs[i] == Outcome(fs[i], allow)
  {
    seq(|fs|, i requires 0 <= i < |fs| => Outcome(fs[i], allow))
  }

  function Join(a: Board, b: Board): Board {
    Board(a.ready + b.ready, a.progress + b.progress)
  }

  /** What one classified order adds to the board: at most one entry, on the
      list its classification names. */
  function Contribution(c: Classification): (b: Board)
    ensures |b.ready| + |b.progress| <= 1
    ensures |b.ready| == 1 <==> c.Ready?
    ensures |b.progress| == 1 <==> c.InProgress?
  {
    match c
    case Skipped => EmptyBoard
    case Ready(name, number) => Board([ReadyEntry(name, number)], [])
    case InProgress(name, number, statusTime) => Board([], [ProgressEntry(name, number, statusTime)])
  }

  /** The board after the loop has gone through classifications `cs` in order. */
  function Gather(cs: seq<Classification>): (b: Board)
    ensures |b.ready| + |b.progress| <= |cs|
    decreases |cs|
  {
    if |cs| == 0 then EmptyBoard
    else Join(Gather(cs[..|cs| - 1]), Contribution(cs[|cs| - 1]))
  }

  /** The board the handler sends for the fetches `fs`. */
  function Collect(fs: seq<Fetch>, allow: set<string>): (b: Board)
    ensures |b.ready| + |b.progress| <= |fs|
  {
    Gather(Outcomes(fs, allow))
  }

  /** Gathering a concatenation is gathering each part and concatenating the
      lists: nothing an order contributes depends on the orders around it. */
  lemma {:induction false} GatherAppend(a: seq<Classification>, b: seq<Classification>)
    ensures Gather(a + b) == Join(Gather(a), Gather(b))
    decreases |b|
  {
    if |b| == 0 {
      assert a + b == a;
    } else {
      var b' := b[..|b| - 1];
      assert (a + b)[..|a + b| - 1] == a + b';
      assert (a + b)[|a + b| - 1] == b[|b| - 1];
      GatherAppend(a, b');
      assert Gather(a + b) == Join(Gather(a + b'), Contribution(b[|b| - 1]));
    }
  }

  /** Which list a classification lands on. */
  predicate Lands(c: Classification, onReady: bool) {
    if onReady then c.Ready? else c.InProgress?
  }

  /** The positions, in increasing order, of the classifications that land on
      the chosen list. */
  function Positions(cs: seq<Classification>, onReady: bool): (idx: seq<nat>)
    ensures forall k :: 0 <= k < |idx| ==> idx[k] < |cs|
    ensures forall k, l :: 0 <= k < l < |idx| ==> idx[k] < idx[l]
    ensures forall i :: 0 <= i < |cs| ==> (i in idx <==> Lands(cs[i], onReady))
    decreases |cs|
  {
    if |cs| == 0 then []
    else
      var init := Positions(cs[..|cs| - 1], onReady);
      if Lands(cs[|cs| - 1], onReady) then init + [|cs| - 1] else init
  }

  /** A failed fetch lands on neither list, and a successful one on at most
      one of them. */
  lemma FetchLandsAtMostOnce(fs: seq<Fetch>, allow: set<string>, i: nat)
    requires i < |fs|
    ensures var cs := Outcomes(fs, allow);
      !(i in Positions(cs, true) && i in Positions(cs, false))
    ensures var cs := Outcomes(fs, allow);
      fs[i].outcome.Failure? ==> i !in Positions(cs, true) && i !in Positions(cs, false)
  {
  }

  /** The ready list is exactly the ready orders, in fetch order. */
  lemma {:induction false} ReadyInFetchOrder(cs: seq<Classification>)
    ensures |Gather(cs).ready| == |Positions(cs, true)|
    ensures forall k :: 0 <= k < |Positions(cs, true)| ==>
      Gather(cs).ready[k] == ReadyEntry(cs[Positions(cs, true)[k]].name, cs[Positions(cs, true)[k]].number)
    decreases |cs|
  {
    if |cs| > 0 {
      var n := |cs|;
      var init := cs[..n - 1];
      ReadyInFetchOrder(init);
      var p0, p := Positions(init, true), Positions(cs, true);
      var b0, b := Gather(init), Gather(cs);
      assert b == Join(b0, Contribution(cs[n - 1]));
      forall k | 0 <= k < |p0|
        ensures cs[p0[k]] == init[p0[k]]
      {
      }
      if cs[n - 1].Ready? {
        assert p == p0 + [n - 1];
        assert b.ready == b0.ready + [ReadyEntry(cs[n - 1].name, cs[n - 1].number)];
      } else {
        assert p == p0;
        assert b.ready == b0.ready;
      }
    }
  }

  /** The progress list is exactly the in-progress orders, in fetch order. */
  lemma {:induction false} ProgressInFetchOrder(cs: seq<Classification>)
    ensures |Gather(cs).progress| == |Positions(cs, false)|
    ensures forall k :: 0 <= k < |Positions(cs, false)| ==>
      var c := cs[Positions(cs, false)[k]];
      Gather(cs).progress[k] == ProgressEntry(c.name, c.number, c.statusTime)
    decreases |cs|
  {
    if |cs| > 0 {
      var n := |cs|;
      var init := cs[..n - 1];
      ProgressInFetchOrder(init);
      var p0, p := Positions(init, false), Positions(cs, false);
      var b0, b := Gather(init), Gather(cs);
      assert b == Join(b0, Contribution(cs[n - 1]));
      forall k | 0 <= k < |p0|
        ensures cs[p0[k]] == init[p0[k]]
      {
      }
      if cs[n - 1].InProgress? {
        var c := cs[n - 1];
        assert p == p0 + [n - 1];
        assert b.progress == b0.progress + [ProgressEntry(c.name, c.number, c.statusTime)];
      } else {
        assert p == p0;
        assert b.progress == b0.progress;
      }
    }
  }

  /** The pushes of the handler's `for` loop: each classification, in
      order, onto the list it names. */
  method PushAll(cs: seq<Classifier.Classification>)
    returns (ready: seq<ReadyEntry>, progress: seq<ProgressEntry>)
    ensures Board(ready, progress) == Gather(cs)
    ensures |ready| + |progress| <= |cs|
  {
    ready, progress := [], [];
    var i := 0;
    while i < |cs|
      invariant i <= |cs|
      invariant Board(ready, progress) == Gather(cs[..i])
    {
      assert cs[..i + 1][..i] == cs[..i];
      match cs[i] {
        case Skipped =>
        case Ready(name, number) =>
          ready := ready + [ReadyEntry(name, number)];
        case InProgress(name, number, statusTime) =>
          progress := progress + [ProgressEntry(name, number, statusTime)];
      }
      i := i + 1;
    }
    assert cs[..i] == cs;
  }

  /** The handler's `for` loop over the fetched orders. Classifying a fetch
      is pure, so classifying every fetch first and then pushing in order
      builds the same lists as interleaving the two. */
  method BuildBoard(fs: seq<Fetch>, allow: set<string>)
    returns (ready: seq<ReadyEntry>, progress: seq<ProgressEntry>)
    ensures Board(ready, progress) == Collect(fs, allow)
    ensures |ready| + |progress| <= |fs|
  {
    ready, progress := PushAll(Outcomes(fs, allow));
  }

  const ErrorBody: string := "Error fetching orders"

  datatype Response = Json(board: Board) | ServerError(body: string)

  /** One `/orders` request: the response and the token cache it leaves. */
  datatype Handled = Handled(response: Response, cache: TokenCache.Cache)

  /** The whole handler. `tokenCall` is this request's `getAccessToken` call;
      `listing` is the outcome of the order-id listing together with each
      listed id's detail fetch. */
  function HandleOrders(
    cache: TokenCache.Cache, tokenCall: TokenCache.Call,
    listing: Result<seq<Fetch>, FetchError>, allow: set<string>): (h: Handled)
    ensures
      var s := TokenCache.GetAccessToken(cache, tokenCall.checkMs, tokenCall.login, tokenCall.issuedMs);
      && h.cache == s.cache
      && (h.response.ServerError? <==> s.token.Failure? || listing.Failure?)
      && (h.response.ServerError? ==> h.response.body == ErrorBody)
      && (h.response.Json? ==> h.response.board == Collect(listing.value, allow))
  {
    var s := TokenCache.GetAccessToken(cache, tokenCall.checkMs, tokenCall.login, tokenCall.issuedMs);
    if s.token.Failure? then Handled(ServerError(ErrorBody), s.cache)
    else
      match listing
      case Failure(_) => Handled(ServerError(ErrorBody), s.cache)
      case Success(fs) => Handled(Json(Collect(fs, allow)), s.cache)
  }
}
