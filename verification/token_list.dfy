/** The TRC20 token list download: offset pagination that advances `start`
    by `limit` and stops at the first page that is not full. */
module TokenList {

  datatype Trc20Token = Trc20Token(contractAddress: string, symbol: string, name: string, decimals: int)

  /** `options.qs.limit`. */
  const PageLimit: nat := 20

  /** The reply to the `k`-th request, the one made with `start == k * PageLimit`;
      requests past the recorded replies get an empty list. */
  function ReplyAt(replies: seq<seq<Trc20Token>>, k: nat): seq<Trc20Token>
  {
    if k < |replies| then replies[k] else []
  }

  /** The tokens collected from the `k`-th request on: every page up to and
      including the first one that is not exactly full. */
  function TokensFrom(replies: seq<seq<Trc20Token>>, k: nat): seq<Trc20Token>
    decreases |replies| - k
  {
    var page := ReplyAt(replies, k);
    if |page| == PageLimit then page + TokensFrom(replies, k + 1) else page
  }

  /** The window a consistent server answers for offset `start`. */
  function Window(all: seq<Trc20Token>, start: nat): seq<Trc20Token>
    requires start <= |all|
  {
    all[start..if start + PageLimit <= |all| then start + PageLimit else |all|]
  }

  /** The replies of a server that serves one fixed list `all` by offset,
      with enough replies recorded to reach a short page. */
  ghost predicate ServesList(replies: seq<seq<Trc20Token>>, all: seq<Trc20Token>)
  {
    && |all| < |replies| * PageLimit
    && forall k :: 0 <= k < |replies| && k * PageLimit <= |all| ==> replies[k] == Window(all, k * PageLimit)
  }

  /** Against a server that serves one fixed list, the download collects
      that list exactly: nothing skipped, nothing repeated, in order (also
      when the list length is a multiple of the page size). */
  lemma {:induction false} DownloadsWholeList(replies: seq<seq<Trc20Token>>, all: seq<Trc20Token>, k: nat)
    requires ServesList(replies, all)
    requires k * PageLimit <= |all|
    ensures TokensFrom(replies, k) == all[k * PageLimit..]
    decreases |all| - k * PageLimit
  {
    assert k < |replies|;
    var page := ReplyAt(replies, k);
    assert page == Window(all, k * PageLimit);
    if |page| == PageLimit {
      DownloadsWholeList(replies, all, k + 1);
      assert all[k * PageLimit..] == page + all[(k + 1) * PageLimit..];
    }
  }

  /** One request of the download: a full page is followed by the next
      request, any other page ends the download. */
  lemma TokensFromStep(replies: seq<seq<Trc20Token>>, k: nat)
    ensures |ReplyAt(replies, k)| == PageLimit ==> k < |replies| && TokensFrom(replies, k) == ReplyAt(replies, k) + TokensFrom(replies, k + 1)
    ensures |ReplyAt(replies, k)| != PageLimit ==> TokensFrom(replies, k) == ReplyAt(replies, k)
  {
  }

  /** The inner `for` loop: push every token of the reply, in order. */
  method PushPage(tokens: seq<Trc20Token>, reply: seq<Trc20Token>) returns (out: seq<Trc20Token>)
    ensures out == tokens + reply
  {
    out := tokens;
    for i := 0 to |reply|
      invariant out == tokens + reply[..i]
    {
      assert reply[..i + 1] == reply[..i] + [reply[i]];
      assert tokens + reply[..i] + [reply[i]] == tokens + (reply[..i] + [reply[i]]);
      out := out + [reply[i]];
    }
    assert reply[..|reply|] == reply;
  }

  /** The `do { … } while (reply.trc20_tokens.length == limit)` loop. */
  method DownloadTokens(replies: seq<seq<Trc20Token>>) returns (tokens: seq<Trc20Token>)
    ensures tokens == TokensFrom(replies, 0)
    ensures forall all :: ServesList(replies, all) ==> tokens == all
  {
    tokens := [];
    var start := 0;
    var k := 0;
    while true
      invariant start == k * PageLimit
      invariant k <= |replies|
      invariant tokens + TokensFrom(replies, k) == TokensFrom(replies, 0)
      decreases |replies| - k
    {
      var reply := ReplyAt(replies, k);
      ghost var before := tokens;
      tokens := PushPage(tokens, reply);
      TokensFromStep(replies, k);
      assert (k + 1) * PageLimit == k * PageLimit + PageLimit;
      start := start + PageLimit;
      k := k + 1;
      if |reply| != PageLimit {
        break;
      }
      assert before + reply + TokensFrom(replies, k) == before + (reply + TokensFrom(replies, k));
    }
    forall all | ServesList(replies, all)
      ensures tokens == all
    {
      DownloadsWholeList(replies, all, 0);
    }
  }
}
