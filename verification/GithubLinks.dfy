/**
 * The links from a pull request to Jira keys (apps/worker/src/github-jira-key-linker.ts). What the regular expression
 * finds in a text is given as the list of its matches.
 */
module GithubLinks {
  import opened Wrappers

  datatype Source = PrTitle | CommitMessage

  /** The unique key of a link, and what is stored under it. */
  datatype LinkKey = LinkKey(organizationId: string, prId: string, jiraKey: string, source: Source)
  datatype Link = Link(repo: string, mergedAt: Option<int>)

  datatype PullRequest = PullRequest(
    id: string,
    repo: string,
    mergedAt: Option<int>,
    titleMatches: seq<string>,
    commitMatches: seq<seq<string>>)

  /** Every key found in the title, or in some commit message. */
  ghost predicate Mentions(pr: PullRequest, source: Source, key: string) {
    match source
    case PrTitle => key in pr.titleMatches
    case CommitMessage => exists i :: 0 <= i < |pr.commitMatches| && key in pr.commitMatches[i]
  }

  /** Each match once, in the order of the first one. */
  method ExtractKeys(matches: seq<string>) returns (keys: seq<string>)
    ensures forall k :: k in keys <==> k in matches
    ensures forall i, j :: 0 <= i < j < |keys| ==> keys[i] != keys[j]
  {
    keys := [];
    for n := 0 to |matches|
      invariant forall k :: k in keys <==> k in matches[..n]
      invariant forall i, j :: 0 <= i < j < |keys| ==> keys[i] != keys[j]
    {
      assert matches[..n + 1] == matches[..n] + [matches[n]];
      if matches[n] !in keys { keys := keys + [matches[n]]; }
    }
    assert matches[..|matches|] == matches;
  }

  method CommitKeys(pr: PullRequest) returns (keys: seq<string>)
    ensures forall k :: k in keys <==> Mentions(pr, CommitMessage, k)
  {
    keys := [];
    for n := 0 to |pr.commitMatches|
      invariant forall k :: k in keys <==> exists i :: 0 <= i < n && k in pr.commitMatches[i]
    {
      var found := ExtractKeys(pr.commitMatches[n]);
      keys := keys + found;
    }
  }

  predicate Owned(k: LinkKey, organizationId: string, prId: string, source: Source) {
    k.organizationId == organizationId && k.prId == prId && k.source == source
  }

  predicate OfPr(k: LinkKey, organizationId: string, prId: string) {
    k.organizationId == organizationId && k.prId == prId
  }

  /** The links one reconciliation should leave: those the texts mention, and every link of any other pull request. */
  ghost predicate Reconciled(was: map<LinkKey, Link>, z: map<LinkKey, Link>, organizationId: string, pr: PullRequest) {
    && (forall k: LinkKey :: k in z <==>
          if OfPr(k, organizationId, pr.id) then Mentions(pr, k.source, k.jiraKey) else k in was)
    && (forall k :: k in z ==>
          z[k] == if OfPr(k, organizationId, pr.id) then Link(if k in was then was[k].repo else pr.repo, pr.mergedAt)
                  else was[k])
  }

  class PrJiraLinks {
    var links: map<LinkKey, Link>

    /** `deleteMany`: every link of this source whose key is not kept. */
    method DeleteGone(organizationId: string, prId: string, source: Source, keys: seq<string>)
      modifies this
      ensures forall k ::
                k in links <==>
                k in old(links) && !(Owned(k, organizationId, prId, source) && k.jiraKey !in keys)
      ensures forall k :: k in links ==> links[k] == old(links)[k]
    {
      links := map k | k in links && !(Owned(k, organizationId, prId, source) && k.jiraKey !in keys) :: links[k];
    }

    method UpsertAll(organizationId: string, pr: PullRequest, source: Source, keys: seq<string>)
      modifies this
      ensures forall k ::
                k in links <==>
                k in old(links) || (Owned(k, organizationId, pr.id, source) && k.jiraKey in keys)
      ensures forall k :: k in links ==>
                links[k] == if Owned(k, organizationId, pr.id, source) && k.jiraKey in keys
                            then Link(if k in old(links) then old(links)[k].repo else pr.repo, pr.mergedAt)
                                else old(links)[k]
    {
      ghost var was := links;
      for n := 0 to |keys|
        invariant forall k ::
                    k in links <==>
                    k in was || (Owned(k, organizationId, pr.id, source) && k.jiraKey in keys[..n])
        invariant forall k :: k in links ==>
                    links[k] == if Owned(k, organizationId, pr.id, source) && k.jiraKey in keys[..n]
                                then Link(if k in was then was[k].repo else pr.repo, pr.mergedAt) else was[k]
      {
        assert keys[..n + 1] == keys[..n] + [keys[n]];
        var k := LinkKey(organizationId, pr.id, keys[n], source);
        links := links[k := if k in links then links[k].(mergedAt := pr.mergedAt) else Link(pr.repo, pr.mergedAt)];
      }
      assert keys[..|keys|] == keys;
    }

    /** One transaction: the two deletions first, then the upserts. */
    method ReconcilePrLinks(organizationId: string, pr: PullRequest)
      modifies this
      ensures Reconciled(old(links), links, organizationId, pr)
    {
      var titleKeys := ExtractKeys(pr.titleMatches);
      var commitKeys := CommitKeys(pr);
      DeleteGone(organizationId, pr.id, PrTitle, titleKeys);
      DeleteGone(organizationId, pr.id, CommitMessage, commitKeys);
      UpsertAll(organizationId, pr, PrTitle, titleKeys);
      UpsertAll(organizationId, pr, CommitMessage, commitKeys);
    }
  }

  /** The texts and the links before determine the result. */
  lemma ReconciledIsUnique(
    was: map<LinkKey, Link>, y: map<LinkKey, Link>, z: map<LinkKey, Link>, organizationId: string, pr: PullRequest)
    requires Reconciled(was, y, organizationId, pr) && Reconciled(was, z, organizationId, pr)
    ensures y == z
  {
    hide Mentions, OfPr;
    forall k: LinkKey ensures k in y <==> k in z {
    }
  }

  /** Reconciling again changes nothing. */
  lemma ReconcilingTwiceIsOnce(
    was: map<LinkKey, Link>, y: map<LinkKey, Link>, z: map<LinkKey, Link>, organizationId: string, pr: PullRequest)
    requires Reconciled(was, y, organizationId, pr) && Reconciled(y, z, organizationId, pr)
    ensures z == y
  {
    hide Mentions, OfPr;
    forall k: LinkKey ensures k in y <==> k in z {
    }
  }

  /** Two tenants that sync the same pull request, or one that syncs two, may be reconciled in either order. */
  lemma ReconciliationsCommute(
    was: map<LinkKey, Link>, a: map<LinkKey, Link>, ab: map<LinkKey, Link>,
    b: map<LinkKey, Link>, ba: map<LinkKey, Link>,
    first: string, p: PullRequest, second: string, q: PullRequest)
    requires first != second || p.id != q.id
    requires Reconciled(was, a, first, p) && Reconciled(a, ab, second, q)
    requires Reconciled(was, b, second, q) && Reconciled(b, ba, first, p)
    ensures ab == ba
  {
    hide Mentions;
    forall k: LinkKey ensures !(OfPr(k, first, p.id) && OfPr(k, second, q.id)) {
    }
    hide OfPr;
    forall k: LinkKey ensures k in ab <==> k in ba {
    }
  }
}
