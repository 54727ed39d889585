/** Comment dispatch: which `@mentions` a comment contains, which agents they reach, and the window
    of earlier comments a spawned agent is shown. */
module Mentions {
  import opened Wrappers
  import opened Text
  import opened Domain

  /** Does `s` start with `name`, ignoring ASCII case? */
  predicate StartsWithIgnoringCase(s: string, name: string)
  {
    |name| <= |s| && Lower(s[..|name|]) == Lower(name)
  }

  /** The first of `names` that `s` starts with, ignoring case: the alternative of the mention
      pattern `@(Jarvis|Architect|...)` that matches right after an `@`. */
  function PrefixMatch(s: string, names: seq<string>): (r: Option<string>)
    ensures r.Some? ==> r.value in names && StartsWithIgnoringCase(s, r.value)
    ensures r.None? ==> forall n :: n in names ==> !StartsWithIgnoringCase(s, n)
  {
    if names == [] then None
    else if StartsWithIgnoringCase(s, names[0]) then Some(names[0])
    else PrefixMatch(s, names[1..])
  }

  /** The first of `names` equal to `m` ignoring case. */
  function FirstSameLower(m: string, names: seq<string>): (r: Option<string>)
    ensures r.Some? ==> r.value in names && Lower(r.value) == Lower(m)
    ensures r.None? ==> forall n :: n in names ==> Lower(n) != Lower(m)
  {
    if names == [] then None
    else if Lower(names[0]) == Lower(m) then Some(names[0])
    else FirstSameLower(m, names[1..])
  }

  /** The roster agent a matched mention text denotes (the normalising loop over
      AGENT_TO_CLAWDBOT_ID's keys). */
  function Canonical(m: string): Option<string>
  {
    FirstSameLower(m, Roster)
  }

  /** `findall` of the pattern `@(n1|n2|...)` with IGNORECASE: the matched name text (as written,
      without the `@`) of every match, scanning left to right without overlap. */
  function FindMatches(s: string, names: seq<string>): seq<string>
    decreases |s|
  {
    if s == [] then []
    else if s[0] == '@' then
      match PrefixMatch(s[1..], names)
      case Some(n) => [s[1..1 + |n|]] + FindMatches(s[1 + |n|..], names)
      case None => FindMatches(s[1..], names)
    else FindMatches(s[1..], names)
  }

  /** `MENTION_PATTERN.findall(content)`: the pattern's alternatives are the roster names. */
  function FindMentions(s: string): seq<string>
  {
    FindMatches(s, Roster)
  }

  /** None of the names holds an `@`. */
  predicate AtFree(names: seq<string>)
  {
    forall m :: m in names ==> '@' !in m
  }

  lemma RosterIsAtFree()
    ensures AtFree(Roster)
  {
    assert '@' !in MainAgentName && '@' !in "Architect" && '@' !in "Security Auditor";
    assert '@' !in "Code Reviewer" && '@' !in "UX Manager";
  }

  /** The scan past a matched `@name`: the name as written, then the scan of the rest. */
  lemma FindMatchesAtMatch(s: string, names: seq<string>, n: string)
    requires s != [] && s[0] == '@' && PrefixMatch(s[1..], names) == Some(n)
    ensures 1 + |n| <= |s| && FindMatches(s, names) == [s[1..1 + |n|]] + FindMatches(s[1 + |n|..], names)
  {
  }

  /** The scan past a character that does not open a match. */
  lemma FindMatchesSkip(s: string, names: seq<string>)
    requires s != [] && !(s[0] == '@' && PrefixMatch(s[1..], names).Some?)
    ensures FindMatches(s, names) == FindMatches(s[1..], names)
  {
  }

  // Soundness: whatever is found is one of the names, written after an `@`.

  /** Every match equals one of the names, ignoring case. */
  lemma {:induction false} MatchesDenoteNames(s: string, names: seq<string>)
    ensures forall m :: m in FindMatches(s, names) ==> FirstSameLower(m, names).Some?
    decreases |s|
  {
    if s != [] {
      if s[0] == '@' && PrefixMatch(s[1..], names).Some? {
        var n := PrefixMatch(s[1..], names).value;
        FindMatchesAtMatch(s, names, n);
        MatchesDenoteNames(s[1 + |n|..], names);
        assert Lower(s[1..1 + |n|]) == Lower(n);
      } else {
        FindMatchesSkip(s, names);
        MatchesDenoteNames(s[1..], names);
      }
    }
  }

  /** Every mention found denotes a roster agent. */
  lemma MentionsDenoteAgents(s: string)
    ensures forall m :: m in FindMentions(s) ==> Canonical(m).Some?
  {
    MatchesDenoteNames(s, Roster);
  }

  /** A comment that opens with `@` contains the `@` followed by what comes next. */
  lemma MentionAtStart(s: string, k: nat)
    requires 1 <= k <= |s| && s[0] == '@'
    ensures Contains(s, "@" + s[1..k])
  {
    assert s[..k] == [s[0]] + s[1..k];
    assert OccursAt(s, "@" + s[1..k], 0);
  }

  /** The step of `MatchesOccurInContent` past a matched `@name`: the name itself is written after
      its `@`, and the later matches are written in the rest of the text. */
  lemma MatchedMentionOccurs(s: string, names: seq<string>, n: string)
    requires s != [] && s[0] == '@' && PrefixMatch(s[1..], names) == Some(n)
    requires forall m :: m in FindMatches(s[1 + |n|..], names) ==> Contains(s[1 + |n|..], "@" + m)
    ensures forall m :: m in FindMatches(s, names) ==> Contains(s, "@" + m)
  {
    var rest := s[1 + |n|..];
    FindMatchesAtMatch(s, names, n);
    MentionAtStart(s, 1 + |n|);
    forall m | m in FindMatches(rest, names) ensures Contains(s, "@" + m) {
      ContainsInSuffix(s, 1 + |n|, "@" + m);
    }
  }

  lemma {:induction false} MatchesOccurInContent(s: string, names: seq<string>)
    ensures forall m :: m in FindMatches(s, names) ==> Contains(s, "@" + m)
    decreases |s|
  {
    if s != [] {
      if s[0] == '@' && PrefixMatch(s[1..], names).Some? {
        var n := PrefixMatch(s[1..], names).value;
        MatchesOccurInContent(s[1 + |n|..], names);
        MatchedMentionOccurs(s, names, n);
      } else {
        MatchesOccurInContent(s[1..], names);
        FindMatchesSkip(s, names);
        forall m | m in FindMatches(s[1..], names) ensures Contains(s, "@" + m) {
          ContainsInSuffix(s, 1, "@" + m);
        }
      }
    }
  }

  /** Every mention found is written in the comment right after an `@`. */
  lemma MentionsOccurInContent(s: string)
    ensures forall m :: m in FindMentions(s) ==> Contains(s, "@" + m)
  {
    MatchesOccurInContent(s, Roster);
  }

  // Completeness: every `@name` is found.

  /** When no name holds an `@`, the text a match consumes holds none either. */
  lemma MatchHoldsNoAt(s: string, names: seq<string>, n: string, k: int)
    requires AtFree(names) && PrefixMatch(s, names) == Some(n) && 0 <= k < |n|
    ensures s[k] != '@'
  {
    assert '@' !in n;
    assert Lower(s[..|n|])[k] == LowerChar(s[k]);
    assert Lower(n)[k] == LowerChar(n[k]);
  }

  /** A later `@` lies past the whole of an earlier match. */
  lemma MatchEndsBeforeAt(s: string, names: seq<string>, n0: string, i: nat)
    requires AtFree(names) && s != [] && PrefixMatch(s[1..], names) == Some(n0)
    requires 0 < i < |s| && s[i] == '@'
    ensures 1 + |n0| <= i
  {
    if i < 1 + |n0| {
      MatchHoldsNoAt(s[1..], names, n0, i - 1);
      assert false;
    }
  }

  lemma {:induction false} MatchesFound(s: string, names: seq<string>, i: nat, n: string)
    requires AtFree(names)
    requires i < |s| && s[i] == '@' && PrefixMatch(s[i + 1..], names) == Some(n)
    ensures i + 1 + |n| <= |s| && s[i + 1..i + 1 + |n|] in FindMatches(s, names)
    decreases |s|, 1
  {
    if s[0] == '@' && PrefixMatch(s[1..], names).Some? {
      var n0 := PrefixMatch(s[1..], names).value;
      FindMatchesAtMatch(s, names, n0);
      if i > 0 {
        MatchEndsBeforeAt(s, names, n0, i);
        MatchFoundPastMatch(s, names, 1 + |n0|, i, n);
        InLater(FindMatches(s, names), s[1..1 + |n0|], FindMatches(s[1 + |n0|..], names), s[i + 1..i + 1 + |n|]);
      }
    } else {
      MatchFoundPastChar(s, names, i, n);
    }
  }

  /** The step of `MatchesFound` past an earlier match that ends before position `k`: the later `@`
      lies beyond it, and the scan goes on from `k`. */
  lemma {:induction false} MatchFoundPastMatch(s: string, names: seq<string>, k: nat, i: nat, n: string)
    requires AtFree(names) && 0 < k <= i < |s|
    requires s[i] == '@' && PrefixMatch(s[i + 1..], names) == Some(n)
    ensures i + 1 + |n| <= |s| && s[i + 1..i + 1 + |n|] in FindMatches(s[k..], names)
    decreases |s|, 0
  {
    var rest, j := s[k..], i - k;
    SuffixShift(s, k, i);
    MatchesFound(rest, names, j, n);
    SuffixSlice(s, k, i, |n|);
  }

  /** A match found later in the scan is among all the matches. */
  lemma InLater(ms: seq<string>, first: string, later: seq<string>, m: string)
    requires ms == [first] + later && m in later
    ensures m in ms
  {
  }

  /** The step of `MatchesFound` past a character that opens no match. */
  lemma {:induction false} MatchFoundPastChar(s: string, names: seq<string>, i: nat, n: string)
    requires AtFree(names) && i < |s| && s[i] == '@' && PrefixMatch(s[i + 1..], names) == Some(n)
    requires !(s[0] == '@' && PrefixMatch(s[1..], names).Some?)
    ensures i + 1 + |n| <= |s| && s[i + 1..i + 1 + |n|] in FindMatches(s, names)
    decreases |s|, 0
  {
    FindMatchesSkip(s, names);
    SuffixShift(s, 1, i);
    MatchesFound(s[1..], names, i - 1, n);
    SuffixSlice(s, 1, i, |n|);
  }

  /** Every `@` followed by a roster name, in any case, is found, with the name as written: no
      roster name holds an `@`, so a match never consumes the `@` of a later one. */
  lemma MentionsFound(s: string, i: nat, n: string)
    requires i < |s| && s[i] == '@' && PrefixMatch(s[i + 1..], Roster) == Some(n)
    ensures i + 1 + |n| <= |s| && s[i + 1..i + 1 + |n|] in FindMentions(s)
  {
    RosterIsAtFree();
    MatchesFound(s, Roster, i, n);
  }

  /** The distinct raw spellings among `mentions` that denote agent `a`. */
  ghost function SpellingsIn(texts: set<string>, a: string): set<string>
  {
    set m | m in texts && Canonical(m) == Some(a)
  }

  /** How many times the dispatch loop spawns `a` for these mentions: once per distinct raw spelling
      (`set(mentions)` dedupes on the text as written), never for the comment's author. */
  ghost function DispatchCount(mentions: seq<string>, author: string, a: string): nat
  {
    if a == author then 0 else |SpellingsIn((set m | m in mentions), a)|
  }

  lemma CountStep(seen: set<string>, m: string, a: string)
    requires m !in seen
    ensures |SpellingsIn(seen + {m}, a)| == |SpellingsIn(seen, a)| + (if Canonical(m) == Some(a) then 1 else 0)
  {
    if Canonical(m) == Some(a) {
      assert SpellingsIn(seen + {m}, a) == SpellingsIn(seen, a) + {m};
    } else {
      assert SpellingsIn(seen + {m}, a) == SpellingsIn(seen, a);
    }
  }

  /** The loop that normalises a mention's case: the first key of AGENT_TO_CLAWDBOT_ID equal to it
      ignoring case, or None. */
  method Normalise(m: string) returns (matched: Option<string>)
    ensures matched == Canonical(m)
    ensures matched.Some? ==> matched.value in Roster && Lower(matched.value) == Lower(m)
  {
    matched := None;
    var k := 0;
    while k < |Roster| && matched.None?
      invariant 0 <= k <= |Roster|
      invariant matched.None? ==> FirstSameLower(m, Roster) == FirstSameLower(m, Roster[k..])
      invariant matched.Some? ==> matched == FirstSameLower(m, Roster)
    {
      if Lower(Roster[k]) == Lower(m) {
        matched := Some(Roster[k]);
      } else {
        assert Roster[k..][1..] == Roster[k + 1..];
      }
      k := k + 1;
    }
    if matched.None? {
      assert Roster[k..] == [];
    }
  }

  /** The dispatch counts so far: each agent other than the author once per distinct spelling seen. */
  ghost predicate CountsMatch(targets: seq<string>, seen: set<string>, author: string)
  {
    forall a :: multiset(targets)[a] == (if a == author then 0 else |SpellingsIn(seen, a)|)
  }

  lemma DispatchStep(targets: seq<string>, seen: set<string>, author: string, m: string)
    requires CountsMatch(targets, seen, author) && m !in seen
    ensures var matched := Canonical(m);
            CountsMatch(if matched.Some? && matched.value != author then targets + [matched.value] else targets,
                        seen + {m}, author)
  {
    var matched := Canonical(m);
    var next := if matched.Some? && matched.value != author then targets + [matched.value] else targets;
    forall a ensures multiset(next)[a] == (if a == author then 0 else |SpellingsIn(seen + {m}, a)|) {
      CountStep(seen, m, a);
    }
  }

  /** The dispatch loop of the comment endpoint: `for mentioned_agent in set(mentions)`, normalise
      to a roster name, skip self-mentions, and collect the agents to spawn, in the (arbitrary)
      order in which the set is visited. */
  method MentionTargets(mentions: seq<string>, author: string) returns (targets: seq<string>)
    ensures forall a :: multiset(targets)[a] == DispatchCount(mentions, author, a)
    ensures forall a :: a in targets ==> a in Roster && a != author
  {
    ghost var all := set m | m in mentions;
    var pending := set m | m in mentions;
    ghost var seen: set<string> := {};
    targets := [];
    while pending != {}
      invariant pending + seen == all && pending !! seen
      invariant CountsMatch(targets, seen, author)
      invariant forall a :: a in targets ==> a in Roster && a != author
      decreases pending
    {
      var m :| m in pending;
      var matched := Normalise(m);
      DispatchStep(targets, seen, author, m);
      if matched.Some? && matched.value != author && GatewayId(matched.value).Some? {
        targets := targets + [matched.value];
      }
      pending := pending - {m};
      seen := seen + {m};
    }
    assert seen == all;
  }

  /** The agents the examples below mention, and a lower-case spelling of one of them. */
  lemma RosterSpellings()
    ensures Canonical("Architect") == Some("Architect")
    ensures Canonical("architect") == Some("Architect")
    ensures Canonical("Code Reviewer") == Some("Code Reviewer")
    ensures Canonical("UX Manager") == Some("UX Manager")
  {
    assert Lower("architect") == Lower("Architect");
    assert Lower("Code Reviewer") != Lower("Architect");
    assert Lower("UX Manager") != Lower("Architect");
    assert Lower("UX Manager") != Lower("Code Reviewer");
  }

  /** A mention's raw text determines how often it dispatches: two spellings of one agent that differ
      only in case dispatch it twice. */
  lemma CaseVariantsDispatchTwice()
    ensures DispatchCount(["Architect", "architect"], "User", "Architect") == 2
  {
    RosterSpellings();
    var texts := set m | m in ["Architect", "architect"];
    assert texts == {"Architect", "architect"};
    assert SpellingsIn(texts, "Architect") == {"Architect", "architect"};
  }

  /** Two distinct agents and a self-mention: each of the two other agents is dispatched exactly once,
      the author never. */
  lemma TwoAgentsAndSelfMention()
    ensures DispatchCount(["Architect", "Code Reviewer", "UX Manager"], "UX Manager", "Architect") == 1
    ensures DispatchCount(["Architect", "Code Reviewer", "UX Manager"], "UX Manager", "Code Reviewer") == 1
    ensures DispatchCount(["Architect", "Code Reviewer", "UX Manager"], "UX Manager", "UX Manager") == 0
  {
    var ms := ["Architect", "Code Reviewer", "UX Manager"];
    var texts := set m | m in ms;
    assert texts == {"Architect", "Code Reviewer", "UX Manager"};
    RosterSpellings();
    assert SpellingsIn(texts, "Architect") == {"Architect"};
    assert SpellingsIn(texts, "Code Reviewer") == {"Code Reviewer"};
  }

  /** Text without an `@` holds no match. */
  lemma {:induction false} NoAtNoMatches(s: string, names: seq<string>)
    requires '@' !in s
    ensures FindMatches(s, names) == []
    decreases |s|
  {
    if s != [] {
      NoAtNoMatches(s[1..], names);
    }
  }

  /** A comment that addresses the Architect in lower case: the one mention is found as written... */
  lemma LowerCaseMentionFound()
    ensures FindMentions("@architect hi") == ["architect"]
  {
    var s := "@architect hi";
    var rest := s[1..];
    assert rest[..6] == "archit" && Lower(rest[..6])[0] != Lower(MainAgentName)[0];
    assert rest[..9] == "architect" && Lower(rest[..9]) == Lower("Architect");
    FindMatchesAtMatch(s, Roster, "Architect");
    assert s[1..10] == "architect" && s[10..] == " hi";
    NoAtNoMatches(" hi", Roster);
  }

  /** ... and dispatches the Architect once. */
  lemma LowerCaseMentionDispatchesOnce()
    ensures DispatchCount(FindMentions("@architect hi"), "User", "Architect") == 1
  {
    LowerCaseMentionFound();
    RosterSpellings();
    assert (set m | m in ["architect"]) == {"architect"};
    assert SpellingsIn({"architect"}, "Architect") == {"architect"};
  }

  // ---------------------------------------------------------------------------------------------
  // Context windows

  /** The comments of one task in creation order (`ORDER BY created_at ASC`). */
  function Thread(comments: seq<Comment>, taskId: int): (r: seq<Comment>)
    ensures |r| <= |comments|
  {
    if comments == [] then []
    else
      var last := comments[|comments| - 1];
      Thread(comments[..|comments| - 1], taskId) + (if last.taskId == taskId then [last] else [])
  }

  /** A thread holds exactly the task's comments. */
  lemma {:induction false} ThreadMembers(comments: seq<Comment>, taskId: int)
    ensures forall c :: c in Thread(comments, taskId) <==> c in comments && c.taskId == taskId
  {
    if comments != [] {
      var init := comments[..|comments| - 1];
      ThreadMembers(init, taskId);
      assert comments == init + [comments[|comments| - 1]];
    }
  }

  lemma ThreadAppend(comments: seq<Comment>, c: Comment)
    ensures Thread(comments + [c], c.taskId) == Thread(comments, c.taskId) + [c]
  {
    assert (comments + [c])[..|comments|] == comments;
  }

  /** The comments other than the one with id `excluded` (`AND id != ?`). */
  function Others(thread: seq<Comment>, excluded: int): (r: seq<Comment>)
    ensures |r| <= |thread|
  {
    if thread == [] then []
    else
      var last := thread[|thread| - 1];
      Others(thread[..|thread| - 1], excluded) + (if last.id != excluded then [last] else [])
  }

  lemma {:induction false} OthersOfFresh(thread: seq<Comment>, excluded: int)
    requires forall c :: c in thread ==> c.id != excluded
    ensures Others(thread, excluded) == thread
  {
    if thread != [] {
      var init, last := thread[..|thread| - 1], thread[|thread| - 1];
      forall c | c in init ensures c.id != excluded {
        assert c in thread;
      }
      OthersOfFresh(init, excluded);
      assert last in thread;
      assert Others(thread, excluded) == init + [last];
      assert thread == init + [last];
    }
  }

  /** The `n` most recent entries, oldest first (`ORDER BY created_at DESC LIMIT n`, reversed). */
  function LastN<T>(s: seq<T>, n: nat): (r: seq<T>)
    ensures |r| == if |s| <= n then |s| else n
  {
    if |s| <= n then s else s[|s| - n..]
  }

  function Excerpt(c: Comment): ContextLine
  {
    ContextLine(c.agent, Take(c.content, 500))
  }

  function Excerpts(cs: seq<Comment>): (r: seq<ContextLine>)
    ensures |r| == |cs|
    ensures forall i :: 0 <= i < |cs| ==> r[i] == Excerpt(cs[i])
  {
    seq(|cs|, i requires 0 <= i < |cs| => Excerpt(cs[i]))
  }

  /** The context handed to mentioned agents: up to five most recent other comments of the task,
      oldest first, each cut to 500 characters. */
  function MentionContext(thread: seq<Comment>, newId: int): (r: seq<ContextLine>)
    ensures |r| <= 5
    ensures forall i :: 0 <= i < |r| ==> |r[i].excerpt| <= 500
  {
    Excerpts(LastN(Others(thread, newId), 5))
  }

  /** The context of a follow-up spawn: the five most recent comments including the new one, minus
      the last entry (`previous_comments[:-1]`). */
  function ReplyContext(thread: seq<Comment>): (r: seq<ContextLine>)
    ensures |r| <= 4
  {
    var window := Excerpts(LastN(thread, 5));
    if window == [] then [] else window[..|window| - 1]
  }

  /** When the new comment is the newest of its thread, mentioned agents see the five comments before
      it, oldest first. */
  lemma MentionContextIsFivePrevious(previous: seq<Comment>, c: Comment)
    requires forall x :: x in previous ==> x.id != c.id
    ensures MentionContext(previous + [c], c.id) == Excerpts(LastN(previous, 5))
  {
    assert (previous + [c])[..|previous|] == previous;
    OthersOfFresh(previous, c.id);
    assert Others(previous + [c], c.id) == previous;
  }

  /** ... while a follow-up spawn sees only the four comments before it: LIMIT 5 counts the new
      comment, which `[:-1]` then drops. */
  lemma ReplyContextIsFourPrevious(previous: seq<Comment>, c: Comment)
    ensures ReplyContext(previous + [c]) == Excerpts(LastN(previous, 4))
  {
    var s := previous + [c];
    var w := LastN(s, 5);
    assert w[..|w| - 1] == LastN(previous, 4);
  }

  /** The excerpt of a comment in the external wake notification: `content[:200]`, plus `...` when
      something was cut. */
  function NotifyExcerpt(content: string): (r: string)
    ensures |content| <= 200 ==> r == content
    ensures |content| > 200 ==> |r| == 203 && r[..200] == content[..200] && r[200..] == "..."
  {
    Take(content, 200) + (if |content| > 200 then "..." else "")
  }
}
