/** The pure display helpers of the top-10 page: the shortened wallet
    address, the rank cell and the CSS class of a table row. */
module Leaderboard {

  /** The three medals, for ranks 0, 1 and 2. */
  const Medals: seq<char> := ['\U{1F947}', '\U{1F948}', '\U{1F949}']

  /** The CSS classes of the three medal rows. */
  const RankClasses: seq<string> := ["gold", "silver", "bronze"]

  function MinInt(a: int, b: int): int { if a <= b then a else b }

  /** `address.slice(0, 6) + "..." + address.slice(-4)`. JavaScript's slice
      clamps: a short address gives its whole self for either part. */
  function ShortenWallet(address: string): (short: string)
    ensures var head, tail := MinInt(6, |address|), MinInt(4, |address|);
      && |short| == head + 3 + tail
      && short[..head] == address[..head]
      && short[head..head + 3] == "..."
      && short[|short| - tail..] == address[|address| - tail..]
    ensures |address| >= 10 ==> |short| == 13
  {
    address[..MinInt(6, |address|)] + "..." + address[|address| - MinInt(4, |address|)..]
  }

  /** For addresses of at least ten characters, two shortened forms are equal
      exactly when the addresses share their first six and last four characters. */
  lemma ShortenedWalletsEqual(a: string, b: string)
    requires |a| >= 10 && |b| >= 10
    ensures ShortenWallet(a) == ShortenWallet(b) <==> a[..6] == b[..6] && a[|a| - 4..] == b[|b| - 4..]
  {
    var sa, sb := ShortenWallet(a), ShortenWallet(b);
    if sa == sb {
      assert a[..6] == sa[..6] == b[..6];
      assert a[|a| - 4..] == sa[9..] == b[|b| - 4..];
    }
  }

  /** What the rank cell shows: a medal text for the first three ranks,
      otherwise the plain number `rank + 1`. */
  datatype RankLabel = MedalText(text: string) | Place(number: int)

  function DigitChar(d: int): char
    requires 0 <= d <= 9
  {
    ('0' as int + d) as char
  }

  /** The number a cell puts in front of the reader. */
  function ShownNumber(cell: RankLabel): int
  {
    match cell
    case Place(n) => n
    case MedalText(t) => if |t| > 0 && '0' <= t[|t| - 1] <= '9' then t[|t| - 1] as int - '0' as int else -1
  }

  function RankDisplay(rank: int): (cell: RankLabel)
    ensures cell.MedalText? <==> 0 <= rank <= 2
    ensures cell.MedalText? ==> cell.text == [Medals[rank], ' ', DigitChar(rank + 1)]
    ensures ShownNumber(cell) == rank + 1
  {
    if rank == 0 then MedalText([Medals[0], ' ', DigitChar(1)])
    else if rank == 1 then MedalText([Medals[1], ' ', DigitChar(2)])
    else if rank == 2 then MedalText([Medals[2], ' ', DigitChar(3)])
    else Place(rank + 1)
  }

  function RankClass(rank: int): (cls: string)
    ensures cls != "" <==> 0 <= rank <= 2
    ensures 0 <= rank <= 2 ==> cls == RankClasses[rank]
  {
    if rank == 0 then "gold"
    else if rank == 1 then "silver"
    else if rank == 2 then "bronze"
    else ""
  }

  /** The rank cell and the row class agree on which ranks get a medal, and
      the medal is the one matching the class. */
  lemma MedalRanksAgree(rank: int)
    ensures RankDisplay(rank).MedalText? <==> RankClass(rank) != ""
    ensures RankClass(rank) == "gold" <==> RankDisplay(rank) == MedalText([Medals[0], ' ', '1'])
  {
  }
}
