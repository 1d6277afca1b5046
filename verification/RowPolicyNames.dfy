/** Which names may reach a statement (packages/db/src/ch-row-policies.ts), and why quoting them is safe. */
module RowPolicyNames {
  import opened Strings
  import opened Wrappers
  import opened RowPolicies

  /** The lower-case word `w`, in any letter case. */
  ghost predicate Spells(v: string, w: string) {
    && |v| == |w|
    && forall i :: 0 <= i < |v| ==> v[i] == w[i] || ('A' <= v[i] <= 'Z' && v[i] as int + 32 == w[i] as int)
  }

  predicate PlainWord(w: string) {
    forall i :: 0 <= i < |w| ==> 'a' <= w[i] <= 'z' || w[i] == '_'
  }

  lemma LowerSpells(v: string, w: string)
    requires PlainWord(w)
    ensures Lower(v) == w <==> Spells(v, w)
  {
    assert |Lower(v)| == |v|;
    assert forall i :: 0 <= i < |v| ==> Lower(v)[i] == LowerChar(v[i]);
    if Spells(v, w) { assert Lower(v) == w; }
  }

  /**
   An id or a login is let through exactly when it is not empty, is made of letters, digits, underscores and hyphens,
   and is not, in any letter case, a keyword that stands for a set of grantees.
   */
  lemma AcceptableExactly(v: string)
    ensures Acceptable(v) <==>
              && v != "" && !Spells(v, "all") && !Spells(v, "none") && !Spells(v, "current_user")
              && forall i :: 0 <= i < |v| ==>
                   'A' <= v[i] <= 'Z' || 'a' <= v[i] <= 'z' || '0' <= v[i] <= '9' || v[i] == '_' || v[i] == '-'
    ensures RoleNameFor(v) == if Acceptable(v) then Some(RoleName(v)) else None
  {
    LowerSpells(v, "all");
    LowerSpells(v, "none");
    LowerSpells(v, "current_user");
    hide Lower, Spells;
  }

  /** The quoted name that a text begins with, behind its opening backtick, and the rest; a backslash escapes. */
  function ReadName(s: string): Option<(string, string)> {
    if s == "" then None
    else if s[0] == '`' then Some(("", s[1..]))
    else
      var skip := if s[0] == '\\' then 2 else 1;
      if |s| < skip then None
      else
        var r := ReadName(s[skip..]);
        if r.None? then None else Some(([s[skip - 1]] + r.value.0, r.value.1))
  }

  lemma {:induction false} ReadsWhole(v: string, rest: string)
    requires forall i :: 0 <= i < |v| ==> v[i] != '`' && v[i] != '\\'
    ensures ReadName(v + "`" + rest) == Some((v, rest))
  {
    var s := v + "`" + rest;
    if v == "" {
      assert s[1..] == rest;
    } else {
      assert s[1..] == v[1..] + "`" + rest;
      ReadsWhole(v[1..], rest);
      assert [s[0]] + v[1..] == v;
    }
  }

  lemma {:induction false} ReadsShort(v: string, k: nat, rest: string)
    requires k < |v| && (v[k] == '`' || v[k] == '\\') && forall i :: 0 <= i < k ==> v[i] != '`' && v[i] != '\\'
    ensures ReadName(v + "`" + rest) != Some((v, rest))
  {
    var s := v + "`" + rest;
    if k > 0 {
      assert s[1..] == v[1..] + "`" + rest;
      ReadsShort(v[1..], k - 1, rest);
      var r := ReadName(s[1..]);
      if r.Some? { assert ([s[0]] + r.value.0)[1..] == r.value.0; }
    } else if v[0] == '\\' && ReadName(s).Some? {
      ReadSplits(s);
      if ReadName(s).value == (v, rest) { ReadIsShorter(s[2..]); }
    }
  }

  /** What was read and what is left are, together, shorter than the text. */
  lemma {:induction false} ReadIsShorter(s: string)
    ensures ReadName(s).Some? ==> |ReadName(s).value.0| + |ReadName(s).value.1| < |s|
  {
    if s != "" && s[0] != '`' {
      var skip := if s[0] == '\\' then 2 else 1;
      if |s| >= skip { ReadIsShorter(s[skip..]); }
    }
  }

  lemma ReadSplits(s: string)
    requires s != "" && s[0] == '\\' && ReadName(s).Some?
    ensures |s| >= 2 && ReadName(s[2..]).Some?
    ensures ReadName(s).value == ([s[1]] + ReadName(s[2..]).value.0, ReadName(s[2..]).value.1)
  {
  }

  /** A quoted name reads back as itself, whatever follows it, exactly when it is one that may be quoted. */
  lemma QuotingReadsBackExactly(v: string, rest: string)
    requires v != ""
    ensures ReadName(v + "`" + rest) == Some((v, rest)) <==> Quotable(v)
  {
    if Quotable(v) {
      ReadsWhole(v, rest);
    } else {
      var k := FirstSpecial(v);
      ReadsShort(v, k, rest);
    }
  }

  lemma {:induction false} FirstSpecial(v: string) returns (k: nat)
    requires exists i :: 0 <= i < |v| && (v[i] == '`' || v[i] == '\\')
    ensures k < |v| && (v[k] == '`' || v[k] == '\\') && forall i :: 0 <= i < k ==> v[i] != '`' && v[i] != '\\'
  {
    if v[0] == '`' || v[0] == '\\' {
      k := 0;
    } else {
      var i :| 0 <= i < |v| && (v[i] == '`' || v[i] == '\\');
      assert v[1..][i - 1] == v[i];
      k := FirstSpecial(v[1..]);
      k := k + 1;
    }
  }

  /** Every acceptable name may be quoted, and so may the role and policy names made from it. */
  lemma AcceptableIsQuotable(v: string)
    requires Acceptable(v)
    ensures Quotable(v) && Quotable(RoleName(v)) && Quotable(IsoName(v))
  {
    assert forall i :: 0 <= i < |v| ==> v[i] != '`' && v[i] != '\\';
    forall i | 0 <= i < |RoleName(v)| ensures RoleName(v)[i] == (if i < 4 then "org_"[i] else v[i - 4]) {
    }
    forall i | 0 <= i < |IsoName(v)| ensures IsoName(v)[i] == (if i < 4 then "iso_"[i] else RoleName(v)[i - 4]) {
    }
  }
}
