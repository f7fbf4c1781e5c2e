/**
 * The status filter: the set of accepted instance statuses that
 * `afterPropertiesSet` derives from the comma-separated
 * `filterInstanceStatus`, and the test `wrapRegisterInfos` applies to each
 * instance. A null set accepts every status.
 */
module StatusFilter {
  import opened Wrappers
  import opened StringUtils

  const SEPARATOR: char := ','

  /** The status one token of the filter string stands for: its trimmed parse, or 0. */
  function TokenStatus(token: string): int32 {
    ToIntOr(Trim(token), 0)
  }

  /** The statuses named by a sequence of tokens. */
  function TokensStatuses(tokens: seq<string>): set<int32> {
    set t | t in tokens :: TokenStatus(t)
  }

  /** One more token adds its status. */
  lemma TokensStatusesSnoc(tokens: seq<string>, t: string)
    ensures TokensStatuses(tokens + [t]) == TokensStatuses(tokens) + {TokenStatus(t)}
  {
    var a, b := TokensStatuses(tokens + [t]), TokensStatuses(tokens) + {TokenStatus(t)};
    forall x | x in a ensures x in b {
      var u :| u in tokens + [t] && TokenStatus(u) == x;
    }
    forall x | x in b ensures x in a {
      if x != TokenStatus(t) {
        var u :| u in tokens && TokenStatus(u) == x;
        assert u in tokens + [t];
      }
    }
  }

  /** The filter set a non-blank `filterInstanceStatus` yields. */
  function FilterSetOf(spec: string): set<int32> {
    TokensStatuses(Split(spec, SEPARATOR))
  }

  /** Whether an instance with `status` survives the filter. */
  predicate Accepts(filter: Option<set<int32>>, status: int32) {
    filter.None? || status in filter.value
  }

  /** The loop of `afterPropertiesSet` that fills the filter set, one token at a time. */
  method BuildStatusFilterSet(spec: string) returns (filterSet: set<int32>)
    ensures filterSet == FilterSetOf(spec)
  {
    var strings := Split(spec, SEPARATOR);
    filterSet := {};
    for i := 0 to |strings|
      invariant filterSet == TokensStatuses(strings[..i])
    {
      assert strings[..i + 1] == strings[..i] + [strings[i]];
      TokensStatusesSnoc(strings[..i], strings[i]);
      filterSet := filterSet + {TokenStatus(strings[i])};
    }
    assert strings[..|strings|] == strings;
  }

  /**
   * The filter set holds exactly the statuses of the tokens: a token that
   * parses contributes its value, one that does not contributes 0, and no
   * other value appears.
   */
  lemma FilterSetMembers(spec: string, x: int32)
    ensures x in FilterSetOf(spec) <==>
      exists t :: t in Split(spec, SEPARATOR) &&
        (ParseInt(Trim(t)) == Some(x) || (ParseInt(Trim(t)) == None && x == 0))
  {
    var tokens := Split(spec, SEPARATOR);
    if x in FilterSetOf(spec) {
      var t :| t in tokens && TokenStatus(t) == x;
      assert ParseInt(Trim(t)) == Some(x) || (ParseInt(Trim(t)) == None && x == 0);
    }
  }

  /** A token that does not parse puts 0 in the filter set. */
  lemma MalformedTokenAcceptsZero(spec: string, t: string)
    requires t in Split(spec, SEPARATOR) && ParseInt(Trim(t)) == None
    ensures Accepts(Some(FilterSetOf(spec)), 0)
  {
    assert TokenStatus(t) == 0;
  }

  /** The filter set never has more statuses than the filter string has tokens. */
  lemma {:induction false} FilterSetSize(tokens: seq<string>)
    ensures |TokensStatuses(tokens)| <= |tokens|
  {
    if tokens != [] {
      var last := tokens[|tokens| - 1];
      var init := tokens[..|tokens| - 1];
      assert tokens == init + [last];
      TokensStatusesSnoc(init, last);
      FilterSetSize(init);
    }
  }

  /** The decimal forms of some statuses, e.g. [0, 2] becomes ["0", "2"]. */
  function Formatted(statuses: seq<int32>): (tokens: seq<string>)
    ensures |tokens| == |statuses|
    ensures forall k :: 0 <= k < |tokens| ==> tokens[k] == FormatInt(statuses[k])
  {
    if statuses == [] then [] else [FormatInt(statuses[0])] + Formatted(statuses[1..])
  }

  /** A formatted status is one token of its own and stands for that status. */
  lemma FormattedToken(n: int32)
    ensures FormatInt(n) != [] && SEPARATOR !in FormatInt(n)
    ensures TokenStatus(FormatInt(n)) == n
  {
    var ds := NatDigits(if n < 0 then 0 - n as int else n);
    assert forall j :: 0 <= j < |ds| ==> ds[j] != SEPARATOR;
    TrimFormat(n);
    ParseFormat(n);
  }

  /**
   * Writing statuses in decimal, separated by commas, gives a filter string
   * whose filter set is exactly those statuses.
   */
  lemma FilterSetOfFormatted(statuses: seq<int32>)
    ensures FilterSetOf(Join(Formatted(statuses), SEPARATOR)) == set s | s in statuses
  {
    var tokens := Formatted(statuses);
    forall k | 0 <= k < |tokens|
      ensures tokens[k] != [] && SEPARATOR !in tokens[k] && TokenStatus(tokens[k]) == statuses[k]
    {
      FormattedToken(statuses[k]);
    }
    SplitJoin(tokens, SEPARATOR);
    assert FilterSetOf(Join(tokens, SEPARATOR)) == TokensStatuses(tokens);
    forall x | x in statuses ensures x in TokensStatuses(tokens) {
      var k :| 0 <= k < |statuses| && statuses[k] == x;
      assert TokenStatus(tokens[k]) == x;
    }
    forall x | x in TokensStatuses(tokens) ensures x in statuses {
      var t :| t in tokens && TokenStatus(t) == x;
      var k :| 0 <= k < |tokens| && tokens[k] == t;
    }
  }

  /** The default `filterInstanceStatus` "0" accepts status 0 only. */
  lemma DefaultFilterAcceptsZeroOnly(status: int32)
    ensures FilterSetOf("0") == {0}
    ensures Accepts(Some(FilterSetOf("0")), status) <==> status == 0
  {
    SplitSingle("0", SEPARATOR);
    FormattedToken(0);
    assert FormatInt(0) == "0";
    assert [] + ["0"] == ["0"];
    TokensStatusesSnoc([], "0");
  }

  /** "0,2" accepts 0 and 2 and rejects 1. */
  lemma ZeroTwoFilter()
    ensures FilterSetOf("0,2") == {0, 2}
    ensures Accepts(Some(FilterSetOf("0,2")), 0) && Accepts(Some(FilterSetOf("0,2")), 2)
    ensures !Accepts(Some(FilterSetOf("0,2")), 1)
  {
    FilterSetOfFormatted([0, 2]);
    assert Formatted([0, 2]) == ["0", "2"];
    assert Join(["0", "2"], SEPARATOR) == "0,2";
  }

  /** "0,,2" builds the same set as "0,2": the doubled separator adds no token, so no 0 from an empty one. */
  lemma DoubledSeparatorFilter()
    ensures FilterSetOf("0,,2") == FilterSetOf("0,2") == {0, 2}
  {
    DoubleSeparatorExample();
    SplitJoin(["0", "2"], SEPARATOR);
    assert Join(["0", "2"], SEPARATOR) == "0,2";
    ZeroTwoFilter();
  }

  /**
   * A filter string of separators only is not blank, yet names no token: its
   * filter set is empty and accepts no status at all.
   */
  lemma SeparatorsOnlyRejectAll(status: int32)
    ensures !IsBlank(Some(","))
    ensures FilterSetOf(",") == {}
    ensures !Accepts(Some(FilterSetOf(",")), status)
  {
    assert !IsWhitespace(","[0]);
    assert Split(",", SEPARATOR) == Split([], SEPARATOR);
  }
}
