/** The Dashboard's leaderboard bookkeeping: the top-10 list it keeps
    (sorted by score, then cut to ten), the guards of registering and of
    adding a finished game's score, and the medal of a list position. */
module Dashboard {
  import Leaderboard

  datatype Option<T> = None | Some(value: T)

  /** A leaderboard row. Rows read from the contract carry the player's
      address and registration flag; rows added after a game carry the
      shortened address and the local date text. */
  datatype Entry =
    | Fetched(address: string, score: int, registered: bool)
    | Added(name: string, score: int, date: string)

  /** What the contract's getPlayer returns: the high score and the registration flag. */
  datatype PlayerRecord = PlayerRecord(score: int, registered: bool)

  const BoardSize: nat := 10

  /** Non-increasing score from the first row to the last. */
  predicate Descending(s: seq<Entry>)
  {
    forall i, j :: 0 <= i < j < |s| ==> s[i].score >= s[j].score
  }

  // ---------------------------------------------------------------------
  // Sorting by score, as a stable sort with comparator `b.score - a.score`

  /** Place `e` into `s` just before the first row scoring less than it. */
  function Insert(s: seq<Entry>, e: Entry): (r: seq<Entry>)
    ensures |r| == |s| + 1
    ensures s == [] ==> r == [e]
    ensures s != [] ==> r[0] == e || r[0] == s[0]
  {
    if s == [] then [e]
    else if s[0].score >= e.score then [s[0]] + Insert(s[1..], e)
    else [e] + s
  }

  /** Insertion adds exactly the new row. */
  lemma {:induction false} InsertPermutes(s: seq<Entry>, e: Entry)
    ensures multiset(Insert(s, e)) == multiset(s) + multiset{e}
  {
    if s != [] && s[0].score >= e.score {
      InsertPermutes(s[1..], e);
      assert s == [s[0]] + s[1..];
    }
  }

  /** Inserting into a sorted list keeps it sorted. */
  lemma {:induction false} InsertKeepsDescending(s: seq<Entry>, e: Entry)
    requires Descending(s)
    ensures Descending(Insert(s, e))
  {
    if s != [] && s[0].score >= e.score {
      InsertKeepsDescending(s[1..], e);
      var rest := Insert(s[1..], e);
      assert rest[0].score <= s[0].score by {
        if |s| > 1 {
          assert rest[0] == e || rest[0] == s[1];
        }
      }
    }
  }

  /** The rows of `s` by non-increasing score; rows with equal scores keep
      their order. Its sortedness and permutation properties are the lemmas
      below it. */
  function SortByScore(s: seq<Entry>): (r: seq<Entry>)
    ensures |r| == |s|
  {
    if s == [] then []
    else Insert(SortByScore(s[..|s| - 1]), s[|s| - 1])
  }

  lemma {:induction false} SortByScoreDescending(s: seq<Entry>)
    ensures Descending(SortByScore(s))
  {
    if s != [] {
      SortByScoreDescending(s[..|s| - 1]);
      InsertKeepsDescending(SortByScore(s[..|s| - 1]), s[|s| - 1]);
    }
  }

  lemma {:induction false} SortByScorePermutes(s: seq<Entry>)
    ensures multiset(SortByScore(s)) == multiset(s)
  {
    if s != [] {
      SortByScorePermutes(s[..|s| - 1]);
      InsertPermutes(SortByScore(s[..|s| - 1]), s[|s| - 1]);
      assert s == s[..|s| - 1] + [s[|s| - 1]];
    }
  }

  /** The rows of `s` scoring exactly `v`, in their order in `s`. */
  function ScoreRows(s: seq<Entry>, v: int): (r: seq<Entry>)
    ensures |r| <= |s|
  {
    if s == [] then []
    else ScoreRows(s[..|s| - 1], v) + (if s[|s| - 1].score == v then [s[|s| - 1]] else [])
  }

  lemma {:induction false} ScoreRowsAppend(s: seq<Entry>, t: seq<Entry>, v: int)
    ensures ScoreRows(s + t, v) == ScoreRows(s, v) + ScoreRows(t, v)
  {
    if t == [] {
      assert s + t == s;
    } else {
      var t' := t[..|t| - 1];
      assert (s + t)[..|s + t| - 1] == s + t';
      ScoreRowsAppend(s, t', v);
    }
  }

  lemma {:induction false} ScoreRowsNone(s: seq<Entry>, v: int)
    requires forall j :: 0 <= j < |s| ==> s[j].score < v
    ensures ScoreRows(s, v) == []
  {
    if s != [] {
      ScoreRowsNone(s[..|s| - 1], v);
    }
  }

  /** Inserting into a sorted list puts the new row after every row with the
      same score, and keeps those rows in their order. */
  lemma InsertKeepsTies(t: seq<Entry>, e: Entry, v: int)
    requires Descending(t)
    ensures ScoreRows(Insert(t, e), v) == ScoreRows(t, v) + (if e.score == v then [e] else [])
  {
    var k := InsertPosition(t, e);
    InsertSplices(t, e);
    RowsAfterPositionScoreLess(t, e);
    SpliceKeepsTies(t[..k], t[k..], e, v);
    assert t[..k] + t[k..] == t;
  }

  /** Splicing a row in front of rows that all score less puts it after
      every row with its score. */
  lemma SpliceKeepsTies(lo: seq<Entry>, hi: seq<Entry>, e: Entry, v: int)
    requires forall j :: 0 <= j < |hi| ==> hi[j].score < e.score
    ensures ScoreRows(lo + [e] + hi, v) == ScoreRows(lo + hi, v) + (if e.score == v then [e] else [])
  {
    ScoreRowsAppend(lo, hi, v);
    ScoreRowsAppend(lo + [e], hi, v);
    assert (lo + [e])[..|lo|] == lo;
    if e.score == v {
      ScoreRowsNone(hi, v);
    }
  }

  /** In a sorted list, every row from the insert position on scores less
      than the new row. */
  lemma RowsAfterPositionScoreLess(t: seq<Entry>, e: Entry)
    requires Descending(t)
    ensures var k := InsertPosition(t, e);
      forall j :: 0 <= j < |t[k..]| ==> t[k..][j].score < e.score
  {
    var k := InsertPosition(t, e);
    forall j | 0 <= j < |t[k..]|
      ensures t[k..][j].score < e.score
    {
      assert t[k..][j] == t[k + j];
      assert t[k + j].score <= t[k].score;
    }
  }

  /** The sort is stable: for every score, the rows with that score come out
      in the order they went in. */
  lemma {:induction false} SortKeepsTies(s: seq<Entry>, v: int)
    ensures ScoreRows(SortByScore(s), v) == ScoreRows(s, v)
  {
    if s != [] {
      var init := s[..|s| - 1];
      SortByScoreDescending(init);
      SortKeepsTies(init, v);
      InsertKeepsTies(SortByScore(init), s[|s| - 1], v);
    }
  }

  /** `rows.sort((a, b) => b.score - a.score).slice(0, 10)`. */
  function TopTen(s: seq<Entry>): (r: seq<Entry>)
    ensures |r| == if |s| < BoardSize then |s| else BoardSize
    ensures Descending(r)
    ensures multiset(r) <= multiset(s)
  {
    var sorted := SortByScore(s);
    var n := if |s| < BoardSize then |s| else BoardSize;
    SortByScoreDescending(s);
    SortByScorePermutes(s);
    assert sorted == sorted[..n] + sorted[n..];
    sorted[..n]
  }

  /** The cut to ten drops no row that scores more than a row it keeps. */
  lemma TopTenDropsOnlyLower(s: seq<Entry>)
    ensures var r := TopTen(s);
      forall d, k :: d in multiset(s) - multiset(r) && k in r ==> d.score <= k.score
  {
    var sorted := SortByScore(s);
    var n := if |s| < BoardSize then |s| else BoardSize;
    SortByScoreDescending(s);
    SortByScorePermutes(s);
    CutKeepsHighest(sorted, n);
    assert TopTen(s) == sorted[..n];
  }

  /** Cutting a sorted list after `n` rows drops no row that scores more
      than a row it keeps. */
  lemma CutKeepsHighest(sorted: seq<Entry>, n: nat)
    requires Descending(sorted) && n <= |sorted|
    ensures multiset(sorted[..n]) <= multiset(sorted)
    ensures forall d, k :: d in multiset(sorted) - multiset(sorted[..n]) && k in sorted[..n] ==> d.score <= k.score
  {
    var lo, hi := sorted[..n], sorted[n..];
    assert sorted == lo + hi;
    MultisetSplit(lo, hi);
    forall i, j | 0 <= i < |lo| && 0 <= j < |hi|
      ensures lo[i].score >= hi[j].score
    {
      assert lo[i] == sorted[i] && hi[j] == sorted[n + j];
    }
    FrontOutscoresBack(lo, hi);
  }

  /** When every front row outscores every back row, so does every row
      counted in the back. */
  lemma FrontOutscoresBack(lo: seq<Entry>, hi: seq<Entry>)
    requires forall i, j :: 0 <= i < |lo| && 0 <= j < |hi| ==> lo[i].score >= hi[j].score
    ensures forall d, k :: d in multiset(hi) && k in lo ==> d.score <= k.score
  {
    forall d, k | d in multiset(hi) && k in lo
      ensures d.score <= k.score
    {
      var j :| 0 <= j < |hi| && hi[j] == d;
      var i :| 0 <= i < |lo| && lo[i] == k;
    }
  }

  /** Taking the front of a list away from the whole leaves the back. */
  lemma MultisetSplit<T>(lo: seq<T>, hi: seq<T>)
    ensures multiset(lo + hi) - multiset(lo) == multiset(hi)
    ensures multiset(lo) <= multiset(lo + hi)
  {
  }

  /** Where `Insert` puts `e`: after every leading row scoring at least as
      much, before the first row scoring less. */
  function InsertPosition(s: seq<Entry>, e: Entry): (k: nat)
    ensures k <= |s|
    ensures forall j :: 0 <= j < k ==> s[j].score >= e.score
    ensures k < |s| ==> s[k].score < e.score
  {
    if s != [] && s[0].score >= e.score then InsertPosition(s[1..], e) + 1 else 0
  }

  /** Insertion splices `e` in at its position and moves nothing else. */
  lemma {:induction false} InsertSplices(s: seq<Entry>, e: Entry)
    ensures var k := InsertPosition(s, e);
      Insert(s, e) == s[..k] + [e] + s[k..]
  {
    if s != [] && s[0].score >= e.score {
      var tail := s[1..];
      var k' := InsertPosition(tail, e);
      InsertSplices(tail, e);
      assert Insert(s, e) == [s[0]] + (tail[..k'] + [e] + tail[k'..]);
      assert s == [s[0]] + tail;
      ConsSplice(s[0], tail, k', e);
    }
  }

  /** Splicing into a tail and then putting the head back is splicing one
      place further in. */
  lemma ConsSplice<T>(x: T, t: seq<T>, k: nat, y: T)
    requires k <= |t|
    ensures [x] + (t[..k] + [y] + t[k..]) == ([x] + t)[..k + 1] + [y] + ([x] + t)[k + 1..]
  {
    assert ([x] + t)[..k + 1] == [x] + t[..k];
    assert ([x] + t)[k + 1..] == t[k..];
  }

  /** A row scoring no more than every row of `s` goes at the end. */
  lemma {:induction false} InsertLowest(s: seq<Entry>, e: Entry)
    requires forall j :: 0 <= j < |s| ==> s[j].score >= e.score
    ensures Insert(s, e) == s + [e]
  {
    if s != [] {
      var tail := s[1..];
      assert forall j :: 0 <= j < |tail| ==> tail[j] == s[j + 1];
      InsertLowest(tail, e);
      assert Insert(s, e) == [s[0]] + (tail + [e]);
      assert [s[0]] + (tail + [e]) == ([s[0]] + tail) + [e];
      assert [s[0]] + tail == s;
    }
  }

  /** Sorting a list that is already sorted changes nothing. */
  lemma {:induction false} SortSortedUnchanged(s: seq<Entry>)
    requires Descending(s)
    ensures SortByScore(s) == s
  {
    if s != [] {
      var init, last := s[..|s| - 1], s[|s| - 1];
      assert SortByScore(s) == Insert(SortByScore(init), last);
      assert Descending(init);
      SortSortedUnchanged(init);
      assert forall j :: 0 <= j < |init| ==> init[j].score >= last.score;
      InsertLowest(init, last);
      assert init + [last] == s;
    }
  }

  /** A score added to a sorted board lands at its rank and the board is cut
      back to ten rows. */
  lemma AddToSortedBoard(board: seq<Entry>, e: Entry) returns (k: nat)
    requires Descending(board)
    ensures k == InsertPosition(board, e)
    ensures var n := if |board| + 1 < BoardSize then |board| + 1 else BoardSize;
      TopTen(board + [e]) == (board[..k] + [e] + board[k..])[..n]
    ensures forall j :: 0 <= j < k ==> board[j].score >= e.score
    ensures forall j :: k <= j < |board| ==> board[j].score < e.score
  {
    var s := board + [e];
    assert s[..|s| - 1] == board;
    SortSortedUnchanged(board);
    assert SortByScore(s) == Insert(board, e);
    k := InsertPosition(board, e);
    InsertSplices(board, e);
    forall j | k <= j < |board|
      ensures board[j].score < e.score
    {
      assert board[j].score <= board[k].score;
    }
  }

  /** The rows the contract reports, in the order of its player list. */
  function Records(players: seq<string>, getPlayer: string -> PlayerRecord): (rows: seq<Entry>)
    ensures |rows| == |players|
    ensures forall i :: 0 <= i < |rows| ==>
      rows[i] == Fetched(players[i], getPlayer(players[i]).score, getPlayer(players[i]).registered)
  {
    seq(|players|, i requires 0 <= i < |players| =>
      Fetched(players[i], getPlayer(players[i]).score, getPlayer(players[i]).registered))
  }

  /** The medal after a list position: the same three medals as the top-10
      page, for exactly the positions that page decorates. */
  function Medal(index: int): (m: string)
    ensures m != "" <==> 0 <= index <= 2
    ensures 0 <= index <= 2 ==> m == [' ', Leaderboard.Medals[index]]
    ensures m != "" <==> Leaderboard.RankClass(index) != ""
  {
    if index == 0 then " \U{1F947}"
    else if index == 1 then " \U{1F948}"
    else if index == 2 then " \U{1F949}"
    else ""
  }

  /** The name the leaderboard tab shows for a row, as written: the row's
      address cut to its first six and last four characters. A row added
      after a game carries no address, so reading it fails (None). */
  function ListedNameAsWritten(e: Entry): (name: Option<string>)
    ensures name.Some? <==> e.Fetched?
    ensures name.Some? ==> name.value == Leaderboard.ShortenWallet(e.address)
  {
    if e.Fetched? then Some(Leaderboard.ShortenWallet(e.address)) else None
  }

  /** On a board of fewer than ten rows, the row a finished game adds is
      always kept, and the leaderboard tab cannot name it. */
  lemma AddedRowCannotBeListed(board: seq<Entry>, wallet: string, score: int, date: string)
    requires |board| < BoardSize
    ensures var e := Added(Leaderboard.ShortenWallet(wallet), score, date);
      e in TopTen(board + [e]) && ListedNameAsWritten(e).None?
  {
    var e := Added(Leaderboard.ShortenWallet(wallet), score, date);
    var s := board + [e];
    SortByScorePermutes(s);
    assert TopTen(s) == SortByScore(s)[..|s|];
    assert SortByScore(s)[..|s|] == SortByScore(s);
    assert e in multiset(s);
  }

  /** The name shown for a row: the shortened address of a fetched row, the
      stored (already shortened) name of an added row. */
  function ListedName(e: Entry): (name: string)
    ensures e.Fetched? && |e.address| >= 10 ==> |name| == 13
  {
    match e
    case Fetched(address, _, _) => Leaderboard.ShortenWallet(address)
    case Added(name, _, _) => name
  }

  /** A row added after a game is listed under the same name as the row the
      contract reports for that wallet, and every named row keeps its name. */
  lemma ListedNameAgrees(wallet: string, score: int, date: string, highScore: int, registered: bool)
    ensures ListedName(Added(Leaderboard.ShortenWallet(wallet), score, date))
         == ListedName(Fetched(wallet, highScore, registered))
    ensures forall e :: ListedNameAsWritten(e).Some? ==> ListedName(e) == ListedNameAsWritten(e).value
  {
  }

  class Dashboard {
    /** The connected wallet; "" stands for none (both are falsy). */
    var walletAddress: string
    var registered: bool
    var leaderboard: seq<Entry>
    var highScore: int

    /** The board is always a top-ten list: at most ten rows, by non-increasing score. */
    ghost predicate Valid()
      reads this
    {
      |leaderboard| <= BoardSize && Descending(leaderboard)
    }

    constructor ()
      ensures Valid()
      ensures walletAddress == "" && !registered && leaderboard == [] && highScore == 0
    {
      walletAddress, registered, leaderboard, highScore := "", false, [], 0;
    }

    /** The fetch: one getPlayer per listed player, collected in a loop, then
        sorted by score and cut to ten rows. */
    method FetchLeaderboard(players: seq<string>, getPlayer: string -> PlayerRecord)
      modifies this
      ensures Valid()
      ensures leaderboard == TopTen(Records(players, getPlayer))
      ensures walletAddress == old(walletAddress) && registered == old(registered)
      ensures highScore == old(highScore)
    {
      var scores: seq<Entry> := [];
      for i := 0 to |players|
        invariant scores == Records(players[..i], getPlayer)
      {
        var playerData := getPlayer(players[i]);
        scores := scores + [Fetched(players[i], playerData.score, playerData.registered)];
      }
      assert players[..|players|] == players;
      leaderboard := TopTen(scores);
    }

    /** The registration check after login: the first wallet becomes the
        address, and a successful getPlayer sets the flag and high score. */
    method SyncRegistration(authenticated: bool, mainWallet: Option<string>, player: Option<PlayerRecord>)
      requires Valid()
      modifies this
      ensures Valid()
      ensures leaderboard == old(leaderboard)
      ensures !authenticated || mainWallet.None? ==>
        walletAddress == old(walletAddress) && registered == old(registered) && highScore == old(highScore)
      ensures authenticated && mainWallet.Some? ==> walletAddress == mainWallet.value
      ensures authenticated && mainWallet.Some? && player.Some? ==>
        registered == player.value.registered && highScore == player.value.score
      ensures authenticated && mainWallet.Some? && player.None? ==>
        registered == old(registered) && highScore == old(highScore)
    {
      if !authenticated {
        return;
      }
      if mainWallet.None? {
        return;
      }
      walletAddress := mainWallet.value;
      if player.Some? {
        registered := player.value.registered;
        highScore := player.value.score;
      }
    }

    /** Registration. `paid` says whether the payable transaction went through. */
    method HandleRegister(paid: bool) returns (attempted: bool)
      requires Valid()
      modifies this
      ensures Valid()
      ensures attempted <==> old(walletAddress) != "" && !old(registered)
      ensures registered == (old(registered) || (attempted && paid))
      ensures walletAddress == old(walletAddress) && leaderboard == old(leaderboard)
      ensures highScore == old(highScore)
    {
      if walletAddress == "" || registered {
        return false;
      }
      attempted := true;
      if paid {
        registered := true;
      }
    }

    /** A finished game's score. The row is added locally first; an on-chain
        update is attempted only for a registered player beating the high
        score, and `confirmed` says whether that transaction went through. */
    method AddScore(score: int, date: string, confirmed: bool) returns (submitted: bool)
      requires Valid()
      modifies this
      ensures Valid()
      ensures old(walletAddress) == "" ==>
        !submitted && leaderboard == old(leaderboard) && highScore == old(highScore)
      ensures old(walletAddress) != "" ==>
        leaderboard == TopTen(old(leaderboard) + [Added(Leaderboard.ShortenWallet(walletAddress), score, date)])
      ensures old(walletAddress) != "" ==>
        var board, e := old(leaderboard), Added(Leaderboard.ShortenWallet(walletAddress), score, date);
        var k, n := InsertPosition(board, e), if |board| + 1 < BoardSize then |board| + 1 else BoardSize;
        leaderboard == (board[..k] + [e] + board[k..])[..n]
      ensures submitted <==> old(walletAddress) != "" && registered && score > old(highScore)
      ensures highScore == if submitted && confirmed then score else old(highScore)
      ensures highScore >= old(highScore)
      ensures walletAddress == old(walletAddress) && registered == old(registered)
    {
      if walletAddress == "" {
        return false;
      }
      var playerName := Leaderboard.ShortenWallet(walletAddress);
      var newEntry := Added(playerName, score, date);
      var rank := AddToSortedBoard(leaderboard, newEntry);
      leaderboard := TopTen(leaderboard + [newEntry]);
      assert leaderboard == TopTen(old(leaderboard) + [Added(Leaderboard.ShortenWallet(walletAddress), score, date)]);
      submitted := false;
      if registered {
        if score > highScore {
          submitted := true;
          if confirmed {
            highScore := score;
          }
        }
      }
    }
  }
}
