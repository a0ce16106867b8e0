/**
 * The search page's filter chain (src/pages/FilterSearch.jsx): an optional
 * exact status match followed by an optional case-insensitive title search.
 * Case folding is ASCII only.
 */
module FilterSearch {
  import opened Common
  import opened Domain

  function LowerChar(ch: char): char
  {
    if 'A' <= ch <= 'Z' then (ch as int + 32) as char else ch
  }

  /** `s.toLowerCase()`, restricted to ASCII letters. */
  function Lower(s: string): (r: string)
    ensures |r| == |s|
    ensures forall i :: 0 <= i < |s| ==> r[i] == LowerChar(s[i])
  {
    if s == [] then [] else [LowerChar(s[0])] + Lower(s[1..])
  }

  /** `s.includes(sub)`: `sub` is a prefix of some suffix of `s`. */
  predicate Contains(s: string, sub: string)
    decreases |s|
  {
    sub <= s || (s != [] && Contains(s[1..], sub))
  }

  /** `includes` is substring search: it holds iff `sub` occurs at some position of `s`. */
  lemma {:induction false} ContainsAt(s: string, sub: string)
    ensures Contains(s, sub) <==> exists i :: 0 <= i <= |s| && sub <= s[i..]
    decreases |s|
  {
    assert s[0..] == s;
    if s != [] {
      ContainsAt(s[1..], sub);
      if Contains(s, sub) && !(sub <= s) {
        var k :| 0 <= k <= |s[1..]| && sub <= s[1..][k..];
        assert s[1..][k..] == s[k + 1..];
      }
      if exists i :: 0 <= i <= |s| && sub <= s[i..] {
        var i :| 0 <= i <= |s| && sub <= s[i..];
        if i > 0 {
          assert s[1..][i - 1..] == s[i..];
        }
      }
    }
  }

  /** `t.title.toLowerCase().includes(keyword.toLowerCase())` */
  predicate TitleMatches(t: Ticket, keyword: string)
  {
    Contains(Lower(t.title), Lower(keyword))
  }

  function TitleHas(keyword: string): Ticket -> bool
  {
    (t: Ticket) => TitleMatches(t, keyword)
  }

  /** A ticket passes when it meets each condition that is switched on by a non-empty input. */
  predicate Matches(t: Ticket, status: string, keyword: string)
  {
    (status == "" || t.status == status) && (keyword == "" || TitleMatches(t, keyword))
  }

  function MatchesBoth(status: string, keyword: string): Ticket -> bool
  {
    (t: Ticket) => Matches(t, status, keyword)
  }

  /** The list `fetchFiltered` stores for the given status and keyword. */
  function FilterTickets(tickets: seq<Ticket>, status: string, keyword: string): (r: seq<Ticket>)
    ensures status == "" && keyword == "" ==> r == tickets
    ensures status != "" ==> forall t :: t in r ==> t.status == status
    ensures keyword != "" ==> forall t :: t in r ==> TitleMatches(t, keyword)
    ensures forall t :: t in r <==> t in tickets && Matches(t, status, keyword)
  {
    var byStatus := if status != "" then Filter(tickets, StatusIs(status)) else tickets;
    if keyword != "" then Filter(byStatus, TitleHas(keyword)) else byStatus
  }

  /** The chain of two filters is the single filter by `Matches`. */
  lemma FilterTicketsIsOneFilter(tickets: seq<Ticket>, status: string, keyword: string)
    ensures FilterTickets(tickets, status, keyword) == Filter(tickets, MatchesBoth(status, keyword))
  {
    var m := MatchesBoth(status, keyword);
    if status != "" && keyword != "" {
      FilterFuse(tickets, StatusIs(status), TitleHas(keyword), m);
    } else if status != "" {
      FilterFuse(tickets, StatusIs(status), StatusIs(status), m);
      FilterIdempotent(tickets, StatusIs(status));
    } else if keyword != "" {
      FilterFuse(tickets, TitleHas(keyword), TitleHas(keyword), m);
      FilterIdempotent(tickets, TitleHas(keyword));
    } else {
      FilterKeepsAll(tickets, m);
    }
  }

  /** The result keeps the input's order. */
  lemma FilterTicketsIsSubsequence(tickets: seq<Ticket>, status: string, keyword: string)
    ensures IsSubsequence(FilterTickets(tickets, status, keyword), tickets)
  {
    FilterTicketsIsOneFilter(tickets, status, keyword);
    FilterIsSubsequence(tickets, MatchesBoth(status, keyword));
  }

  /** Filtering the result again with the same inputs changes nothing. */
  lemma FilterTicketsIdempotent(tickets: seq<Ticket>, status: string, keyword: string)
    ensures
      var r := FilterTickets(tickets, status, keyword);
      FilterTickets(r, status, keyword) == r
  {
    var r := FilterTickets(tickets, status, keyword);
    FilterTicketsIsOneFilter(r, status, keyword);
    FilterKeepsAll(r, MatchesBoth(status, keyword));
  }
}
