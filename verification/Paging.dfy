/** ListVolumes paging: what a caller that follows `next_token` sees, as written and as the standard means it. */
module Paging {
  import opened Status
  import opened MachineInts
  import opened Numerals

  datatype Page<T> = Page(entries: seq<T>, nextToken: string)

  function Min(a: nat, b: nat): nat {
    if a < b then a else b
  }

  /** The start position a token denotes; the empty token is zero. */
  function ParseStart(token: string): Result<usize> {
    if token == "" then Ok(0)
    else match ParseUsize(token) case Some(start) => Ok(start) case None => Err(Aborted)
  }

  /** The most entries one reply may hold; zero asks for no limit. */
  function TakeCount(maxEntries: usize): usize {
    if maxEntries == 0 then TWO_64 - 1 else maxEntries
  }

  /**
   * `list_volumes` as written, over the volumes volumed lists: the start position is not skipped, and the
   * next token is decided against the length of the page rather than of the list.
   */
  function ListVolumes<T>(all: seq<T>, maxEntries: i32, token: string): Result<Page<T>> {
    if maxEntries < 0 then Err(InvalidArgument)
    else
      match ParseStart(token)
      case Err(code) => Err(code)
      case Ok(start) => Ok(PageFrom(all, maxEntries, start))
  }

  function PageFrom<T>(all: seq<T>, maxEntries: usize, start: usize): Page<T> {
    var entries := all[..Min(TakeCount(maxEntries), |all|)];
    var lastIndex := WrappingAdd(start, maxEntries);
    Page(entries, if lastIndex < |entries| then PrintUsize(lastIndex) else "")
  }

  /** The same with the start skipped and the token decided against the whole list, as the standard asks. */
  function ListVolumesIntended<T>(all: seq<T>, maxEntries: i32, token: string): Result<Page<T>>
    requires |all| < TWO_63
  {
    if maxEntries < 0 then Err(InvalidArgument)
    else
      match ParseStart(token)
      case Err(code) => Err(code)
      case Ok(start) => Ok(IntendedPageFrom(all, maxEntries, start))
  }

  function IntendedPageFrom<T>(all: seq<T>, maxEntries: usize, start: usize): Page<T>
    requires |all| < TWO_63
  {
    var from := Min(start, |all|);
    var to := if maxEntries == 0 then |all| else Min(from + maxEntries, |all|);
    Page(all[from..to], if to < |all| then PrintUsize(to) else "")
  }

  /** The pages a caller collects by following tokens through the intended handler. */
  ghost predicate Follows<T>(all: seq<T>, maxEntries: i32, token: string, pages: seq<seq<T>>)
    requires |all| < TWO_63
    decreases |pages|
  {
    var reply := ListVolumesIntended(all, maxEntries, token);
    && pages != [] && reply.Ok? && pages[0] == reply.value.entries
    && if reply.value.nextToken == "" then |pages| == 1
       else Follows(all, maxEntries, reply.value.nextToken, pages[1..])
  }

  function Flatten<T>(pages: seq<seq<T>>): seq<T> {
    if pages == [] then [] else pages[0] + Flatten(pages[1..])
  }

  lemma TokenStart(n: usize)
    ensures PrintUsize(n) != "" && ParseStart(PrintUsize(n)) == Ok(n)
  {
    RenderRoundTrip(n, 10);
    TokenRoundTrip(n);
  }

  lemma FollowsStep<T>(all: seq<T>, maxEntries: i32, token: string, start: nat, rest: seq<seq<T>>)
    requires |all| < TWO_63 && 0 < maxEntries && ParseStart(token) == Ok(start) && start + maxEntries < |all|
    requires Follows(all, maxEntries, PrintUsize(start + maxEntries), rest)
    ensures Follows(all, maxEntries, token, [all[start..start + maxEntries]] + rest)
  {
    hide Render, Value;
    TokenStart(start + maxEntries);
    assert ([all[start..start + maxEntries]] + rest)[1..] == rest;
    assert ListVolumesIntended(all, maxEntries, token) == Ok(IntendedPageFrom(all, maxEntries, start));
  }

  lemma FollowsLast<T>(all: seq<T>, maxEntries: i32, token: string, start: nat)
    requires |all| < TWO_63 && 0 < maxEntries && ParseStart(token) == Ok(start) && start <= |all| <= start + maxEntries
    ensures Follows(all, maxEntries, token, [all[start..]])
  {
    hide Render, Value;
    assert ListVolumesIntended(all, maxEntries, token) == Ok(IntendedPageFrom(all, maxEntries, start));
  }

  lemma FlattenCons<T>(page: seq<T>, rest: seq<seq<T>>)
    ensures Flatten([page] + rest) == page + Flatten(rest)
  {
    assert ([page] + rest)[1..] == rest;
  }

  lemma FlattenNone<T>()
    ensures Flatten<T>([]) == []
  {
  }

  /**
   * Following the intended tokens visits every volume from the start on exactly once, in list order, in
   * full pages but for the last, and stops: such a sequence of pages exists.
   */
  lemma {:induction false} IntendedVisitsAll<T>(all: seq<T>, maxEntries: i32, token: string, start: nat)
    returns (pages: seq<seq<T>>)
    requires |all| < TWO_63 && 0 < maxEntries && ParseStart(token) == Ok(start) && start <= |all|
    ensures Follows(all, maxEntries, token, pages) && Flatten(pages) == all[start..]
    ensures forall k :: 0 <= k < |pages| - 1 ==> |pages[k]| == maxEntries
    ensures |pages[|pages| - 1]| <= maxEntries
    decreases |all| - start
  {
    hide Render, Value, ParseUsize, Follows, Flatten, ListVolumesIntended;
    var to := Min(start + maxEntries, |all|);
    var page := all[start..to];
    if to < |all| {
      TokenStart(to);
      var rest := IntendedVisitsAll(all, maxEntries, PrintUsize(to), to);
      pages := [page] + rest;
      FollowsStep(all, maxEntries, token, start, rest);
      FlattenCons(page, rest);
      assert all[start..] == page + all[to..];
    } else {
      pages := [page];
      assert page == all[start..];
      FollowsLast(all, maxEntries, token, start);
      FlattenCons(page, []);
      FlattenNone<T>();
      assert [page] + [] == pages;
    }
  }

  /** And a caller can see no other pages. */
  lemma {:induction false} FollowedPagesUnique<T>(all: seq<T>, maxEntries: i32, token: string,
                                                  a: seq<seq<T>>, b: seq<seq<T>>)
    requires |all| < TWO_63 && Follows(all, maxEntries, token, a) && Follows(all, maxEntries, token, b)
    ensures a == b
    decreases |a|
  {
    var reply := ListVolumesIntended(all, maxEntries, token);
    if reply.value.nextToken != "" {
      FollowedPagesUnique(all, maxEntries, reply.value.nextToken, a[1..], b[1..]);
      assert a == [a[0]] + a[1..] && b == [b[0]] + b[1..];
    }
  }

  /**
   * The code as written, with a limit n > 0 and any token it accepts: the page always holds the first n
   * volumes, so a caller sees the whole list iff it fits in one page, whatever tokens it follows. A next
   * token comes with it exactly when start + n wraps around to a position within the list.
   */
  lemma AsWrittenStopsAfterPrefix<T>(all: seq<T>, maxEntries: i32, token: string)
    requires 0 < maxEntries && ParseStart(token).Ok?
    ensures ListVolumes(all, maxEntries, token).Ok?
    ensures var page, next := ListVolumes(all, maxEntries, token).value, ParseStart(token).value + maxEntries;
      && page.entries == all[..Min(maxEntries, |all|)]
      && (page.entries == all <==> |all| <= maxEntries)
      && (page.nextToken != "" <==> TWO_64 <= next < TWO_64 + |all|)
      && (page.nextToken != "" ==> page.nextToken == PrintUsize(next - TWO_64))
  {
    hide *;
    var start := ParseStart(token).value;
    AsWrittenPage(all, maxEntries, token, start);
    LimitedPage(all, maxEntries, start);
  }

  /** The page as written under a limit: the index is past the page unless it wraps around. */
  lemma LimitedPage<T>(all: seq<T>, maxEntries: i32, start: usize)
    requires 0 < maxEntries
    ensures var page, next := PageFrom(all, maxEntries, start), start + maxEntries;
      && page.entries == all[..Min(maxEntries, |all|)]
      && (page.entries == all <==> |all| <= maxEntries)
      && (page.nextToken != "" <==> TWO_64 <= next < TWO_64 + |all|)
      && (page.nextToken != "" ==> page.nextToken == PrintUsize(next - TWO_64))
  {
    WrapsOnce(start, maxEntries);
    TokenStart(WrappingAdd(start, maxEntries));
    hide WrappingAdd, PrintUsize, ParseStart, ParseUsize, Render;
    if |all| > maxEntries {
      assert |all[..maxEntries]| < |all|;
    } else {
      assert all[..|all|] == all;
    }
  }

  lemma WrapsOnce(a: usize, b: usize)
    ensures WrappingAdd(a, b) == if TWO_64 <= a + b then a + b - TWO_64 else a + b
  {
  }

  /**
   * The code as written, with no limit: the whole list, and on a list longer than the start a next token
   * that denotes the same start, so the reply to it is the same reply again, forever.
   */
  lemma AsWrittenLoopsForever<T>(all: seq<T>, token: string)
    requires |all| < TWO_63 && ParseStart(token).Ok?
    ensures var page := ListVolumes(all, 0, token).value;
      && page.entries == all
      && (page.nextToken != "" <==> ParseStart(token).value < |all|)
      && (page.nextToken != "" ==> ListVolumes(all, 0, page.nextToken) == ListVolumes(all, 0, token))
  {
    var start := ParseStart(token).value;
    TokenStart(start);
    UnlimitedPage(all, start);
    AsWrittenPage(all, 0, token, start);
    AsWrittenPage(all, 0, PrintUsize(start), start);
  }

  /**
   * What is refused before volumed is asked, for any list: a negative limit with InvalidArgument, and otherwise a
   * token that is neither empty nor a decimal below 2^64 with Aborted.
   */
  lemma ListRefusals<T>(all: seq<T>, maxEntries: i32, token: string)
    ensures var digits := if token != "" && token[0] == '+' then token[1..] else token;
      var accepted :=
        token == "" || (digits != "" && Decimal(digits) && Positional(digits, 10) < 0x1_0000_0000_0000_0000);
      && (maxEntries < 0 ==> ListVolumes(all, maxEntries, token) == Err(InvalidArgument))
      && (maxEntries >= 0 && !accepted ==> ListVolumes(all, maxEntries, token) == Err(Aborted))
      && (maxEntries >= 0 && accepted ==> ListVolumes(all, maxEntries, token).Ok?)
      && (ParseStart(token).Ok? <==> accepted)
      && (accepted ==> ParseStart(token).value == if token == "" then 0 else Positional(digits, 10))
  {
    ParseUsizeExactly(token);
    hide ParseUsize, Positional, PageFrom;
  }

  /** ListVolumes with its remote call, which is made only when the request is accepted. */
  function AnswerList<T>(answer: Result<seq<T>>, maxEntries: i32, token: string): (reply: Result<Page<T>>)
    ensures answer.Ok? ==> reply == ListVolumes(answer.value, maxEntries, token)
    ensures answer.Err? ==> reply.Err? && (reply.code == Internal <==> maxEntries >= 0 && ParseStart(token).Ok?)
  {
    match answer
    case Ok(all) => ListVolumes(all, maxEntries, token)
    case Err(_) =>
      match ListVolumes<T>([], maxEntries, token)
      case Ok(_) => Err(Internal)
      case Err(code) => Err(code)
  }

  lemma AsWrittenPage<T>(all: seq<T>, maxEntries: i32, token: string, start: usize)
    requires 0 <= maxEntries && ParseStart(token) == Ok(start)
    ensures ListVolumes(all, maxEntries, token) == Ok(PageFrom(all, maxEntries, start))
  {
  }

  lemma UnlimitedPage<T>(all: seq<T>, start: usize)
    requires |all| < TWO_63
    ensures PageFrom(all, 0, start) == Page(all, if start < |all| then PrintUsize(start) else "")
  {
    hide Render;
    assert all[..|all|] == all;
  }

  /** On a non-empty list the unlimited loop is reached from the empty token. */
  lemma UnlimitedListingNeverEnds<T>(all: seq<T>)
    requires 0 < |all| < TWO_63
    ensures ListVolumes(all, 0, "") == Ok(Page(all, "0")) && ListVolumes(all, 0, "0") == Ok(Page(all, "0"))
  {
    assert PrintUsize(0) == "0";
    TokenStart(0);
    AsWrittenLoopsForever(all, "");
  }

  /**
   * No token the server prints can make `start + max_entries` overflow, for any later limit: such a token
   * denotes a position within a list of at most 2^63 - 1 volumes.
   */
  lemma PrintedTokensNeverOverflow<T>(all: seq<T>, maxEntries: i32, token: string, later: i32)
    requires |all| < TWO_63 && 0 <= later
    requires ListVolumes(all, maxEntries, token).Ok? && ListVolumes(all, maxEntries, token).value.nextToken != ""
    ensures var next := ListVolumes(all, maxEntries, token).value.nextToken;
      ParseStart(next).Ok? && ParseStart(next).value < |all| && ParseStart(next).value + later < TWO_64
  {
    TokenRoundTrip(WrappingAdd(ParseStart(token).value, maxEntries));
  }

  /**
   * An arbitrary accepted token can: for every limit n > 0 and non-empty list there is one whose reply, the
   * first page again, carries a token back to the beginning.
   */
  lemma AcceptedTokenOverflows<T>(all: seq<T>, maxEntries: i32) returns (token: string)
    requires 0 < maxEntries && all != []
    ensures ParseStart(token).Ok? && TWO_64 <= ParseStart(token).value + maxEntries
    ensures ListVolumes(all, maxEntries, token) == Ok(Page(all[..Min(maxEntries, |all|)], PrintUsize(0)))
  {
    token := PrintUsize(TWO_64 - maxEntries);
    TokenStart(TWO_64 - maxEntries);
    TokenStart(0);
    AsWrittenStopsAfterPrefix(all, maxEntries, token);
    hide ListVolumes, PageFrom, ParseUsize, Render;
  }
}
