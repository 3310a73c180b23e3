/** The top level of the script: the six adapters are called in a fixed
    order and their lists concatenated. A raise in any adapter escapes the
    script, so there is then no list at all. */
module Aggregation {
  import opened Text
  import opened Contest
  import opened Adapter
  import opened Platforms

  /** Everything the six adapters read: the payloads of their requests,
      the current instant and the library date parsers. */
  datatype Inputs = Inputs(
    codechef: Response<CodeChefLists>,
    codeforces: Response<seq<CodeforcesItem>>,
    geeksforgeeks: Response<seq<GeeksforGeeksItem>>,
    leetcode: Response<seq<LeetCodeItem>>,
    hackerearth: Page<Card>,
    details: string -> Details,
    atcoder: Page<Row>,
    now: int,
    parseIso: string -> Option<int>,
    parseTime: string -> Option<int>)

  /** `codechef + codeforces + geeksforgeeks + leetcode + hackerearth + atcoder`,
      where the first four may have raised instead of returning. */
  function Combine(codechef: Outcome, codeforces: Outcome, geeksforgeeks: Outcome, leetcode: Outcome,
                   hackerearth: seq<Contest>, atcoder: seq<Contest>): Outcome
  {
    if codechef.Raised? || codeforces.Raised? || geeksforgeeks.Raised? || leetcode.Raised? then Raised
    else Returned(codechef.contests + codeforces.contests + geeksforgeeks.contests
                  + leetcode.contests + hackerearth + atcoder)
  }

  /** The list the script builds from its inputs. */
  function AllContests(inputs: Inputs): Outcome {
    Combine(CodeChefContests(inputs.codechef),
            CodeforcesContests(inputs.codeforces, inputs.now),
            GeeksforGeeksContests(inputs.geeksforgeeks),
            LeetCodeContests(inputs.leetcode, inputs.now),
            HackerEarthContests(inputs.hackerearth, inputs.details, inputs.parseIso),
            AtCoderContests(inputs.atcoder, inputs.parseTime))
  }

  /** The six calls, left to right; the first raise ends the script
      before the later adapters run. */
  method FetchAll(inputs: Inputs) returns (out: Outcome)
    ensures out == AllContests(inputs)
  {
    var codechef := FetchCodeChef(inputs.codechef);
    if codechef.Raised? {
      return Raised;
    }
    var codeforces := FetchCodeforces(inputs.codeforces, inputs.now);
    if codeforces.Raised? {
      return Raised;
    }
    var geeksforgeeks := FetchGeeksforGeeks(inputs.geeksforgeeks);
    if geeksforgeeks.Raised? {
      return Raised;
    }
    var leetcode := FetchLeetCode(inputs.leetcode, inputs.now);
    if leetcode.Raised? {
      return Raised;
    }
    var hackerearth := FetchHackerEarth(inputs.hackerearth, inputs.details, inputs.parseIso);
    var atcoder := FetchAtCoder(inputs.atcoder, inputs.parseTime);
    out := Returned(codechef.contests + codeforces.contests + geeksforgeeks.contests
                    + leetcode.contests + hackerearth + atcoder);
  }

  /** The records of one platform, in list order. */
  function OfPlatform(cs: seq<Contest>, p: Platform): seq<Contest> {
    if cs == [] then []
    else
      var front := OfPlatform(cs[..|cs| - 1], p);
      if cs[|cs| - 1].platform == p then front + [cs[|cs| - 1]] else front
  }

  predicate AllFrom(cs: seq<Contest>, p: Platform) {
    forall c :: c in cs ==> c.platform == p
  }

  function Labelled(p: Platform): Contest -> bool {
    (c: Contest) => c.platform == p
  }

  lemma {:induction false} OfPlatformAppend(a: seq<Contest>, b: seq<Contest>, p: Platform)
    ensures OfPlatform(a + b, p) == OfPlatform(a, p) + OfPlatform(b, p)
  {
    if b != [] {
      var n := |b| - 1;
      assert (a + b)[..|a + b| - 1] == a + b[..n];
      assert (a + b)[|a + b| - 1] == b[n];
      OfPlatformAppend(a, b[..n], p);
    } else {
      assert a + b == a;
    }
  }

  /** Selecting a platform from a list that holds only that platform's
      records gives the list back, in order; from a list that holds none
      of them it gives nothing. */
  lemma {:induction false} OfPlatformOf(cs: seq<Contest>, p: Platform, q: Platform)
    requires AllFrom(cs, q)
    ensures OfPlatform(cs, p) == if p == q then cs else []
  {
    if cs != [] {
      var n := |cs| - 1;
      var front := cs[..n];
      assert AllFrom(front, q) by {
        forall c | c in front
          ensures c in cs
        {
          var i :| 0 <= i < |front| && front[i] == c;
          assert cs[i] == c;
        }
      }
      OfPlatformOf(front, p, q);
      if p == q {
        assert OfPlatform(cs, p) == front + [cs[n]];
        assert front + [cs[n]] == cs;
      } else {
        assert OfPlatform(cs, p) == OfPlatform(front, p);
      }
    }
  }

  /** Codeforces fails its caller on an unhandled request or an incomplete entry. */
  predicate CodeforcesFails(response: Response<seq<CodeforcesItem>>) {
    response.Unhandled?
    || (response.Ok? && exists i :: 0 <= i < |response.body| && !CodeforcesComplete(response.body[i]))
  }

  predicate GeeksforGeeksFails(response: Response<seq<GeeksforGeeksItem>>) {
    response.Unhandled?
    || (response.Ok? && exists i :: 0 <= i < |response.body| && !GeeksforGeeksComplete(response.body[i]))
  }

  predicate LeetCodeFails(response: Response<seq<LeetCodeItem>>) {
    response.Unhandled?
    || (response.Ok? && exists i :: 0 <= i < |response.body| && !LeetCodeComplete(response.body[i]))
  }

  /** The script raises exactly when a JSON request is left unhandled, or
      a Codeforces, GeeksforGeeks or LeetCode body holds an incomplete
      entry. CodeChef's entries, HackerEarth and AtCoder never make it
      raise, and neither does `now`. */
  lemma ScriptRaises(inputs: Inputs)
    ensures AllContests(inputs).Raised?
            <==> inputs.codechef.Unhandled? || CodeforcesFails(inputs.codeforces)
                 || GeeksforGeeksFails(inputs.geeksforgeeks) || LeetCodeFails(inputs.leetcode)
  {
    CodeChefRaises(inputs.codechef);
    CodeforcesRaises(inputs.codeforces, inputs.now);
    GeeksforGeeksFailsRaises(inputs.geeksforgeeks);
    LeetCodeRaises(inputs.leetcode, inputs.now);
  }

  lemma CodeChefRaises(response: Response<CodeChefLists>)
    ensures CodeChefContests(response).Raised? <==> response.Unhandled?
  {
    if response.Ok? {
      CodeChefPresentThenFuture(response.body);
    }
  }

  lemma CodeforcesRaises(response: Response<seq<CodeforcesItem>>, now: int)
    ensures CodeforcesContests(response, now).Raised? <==> CodeforcesFails(response)
  {
    if response.Ok? {
      CodeforcesOnlyRunning(response.body, now);
    }
  }

  lemma GeeksforGeeksFailsRaises(response: Response<seq<GeeksforGeeksItem>>)
    ensures GeeksforGeeksContests(response).Raised? <==> GeeksforGeeksFails(response)
  {
    if response.Ok? {
      GeeksforGeeksRaises(response.body);
    }
  }

  lemma LeetCodeRaises(response: Response<seq<LeetCodeItem>>, now: int)
    ensures LeetCodeContests(response, now).Raised? <==> LeetCodeFails(response)
  {
    if response.Ok? {
      LeetCodeOnlyRunning(response.body, now);
    }
  }

  /** The combined list is as long as its six parts together. */
  lemma CombineLength(codechef: Outcome, codeforces: Outcome, geeksforgeeks: Outcome, leetcode: Outcome,
                      hackerearth: seq<Contest>, atcoder: seq<Contest>)
    requires codechef.Returned? && codeforces.Returned? && geeksforgeeks.Returned? && leetcode.Returned?
    ensures var r := Combine(codechef, codeforces, geeksforgeeks, leetcode, hackerearth, atcoder);
      r.Returned?
      && |r.contests| == |codechef.contests| + |codeforces.contests| + |geeksforgeeks.contests|
                         + |leetcode.contests| + |hackerearth| + |atcoder|
  {
  }

  /** When each part holds only its own platform's records, every
      platform's records in the combined list are exactly that adapter's
      list in its own order: an empty part leaves the others untouched. */
  lemma CombineKeepsEach(codechef: Outcome, codeforces: Outcome, geeksforgeeks: Outcome, leetcode: Outcome,
                         hackerearth: seq<Contest>, atcoder: seq<Contest>)
    requires codechef.Returned? && codeforces.Returned? && geeksforgeeks.Returned? && leetcode.Returned?
    requires AllFrom(codechef.contests, CodeChef) && AllFrom(codeforces.contests, Codeforces)
    requires AllFrom(geeksforgeeks.contests, GeeksforGeeks) && AllFrom(leetcode.contests, LeetCode)
    requires AllFrom(hackerearth, HackerEarth) && AllFrom(atcoder, AtCoder)
    ensures var r := Combine(codechef, codeforces, geeksforgeeks, leetcode, hackerearth, atcoder).contests;
      OfPlatform(r, CodeChef) == codechef.contests
      && OfPlatform(r, Codeforces) == codeforces.contests
      && OfPlatform(r, GeeksforGeeks) == geeksforgeeks.contests
      && OfPlatform(r, LeetCode) == leetcode.contests
      && OfPlatform(r, HackerEarth) == hackerearth
      && OfPlatform(r, AtCoder) == atcoder
  {
    var a, b, c, d := codechef.contests, codeforces.contests, geeksforgeeks.contests, leetcode.contests;
    var e, f := hackerearth, atcoder;
    assert OfPlatform(a + b + c + d + e + f, CodeChef) == a by {
      Select(a, b, c, d, e, f, CodeChef);
      OfPlatformOf(a, CodeChef, CodeChef);
      OfPlatformOf(b, CodeChef, Codeforces);
      OfPlatformOf(c, CodeChef, GeeksforGeeks);
      OfPlatformOf(d, CodeChef, LeetCode);
      OfPlatformOf(e, CodeChef, HackerEarth);
      OfPlatformOf(f, CodeChef, AtCoder);
    }
    assert OfPlatform(a + b + c + d + e + f, Codeforces) == b by {
      Select(a, b, c, d, e, f, Codeforces);
      OfPlatformOf(a, Codeforces, CodeChef);
      OfPlatformOf(b, Codeforces, Codeforces);
      OfPlatformOf(c, Codeforces, GeeksforGeeks);
      OfPlatformOf(d, Codeforces, LeetCode);
      OfPlatformOf(e, Codeforces, HackerEarth);
      OfPlatformOf(f, Codeforces, AtCoder);
    }
    assert OfPlatform(a + b + c + d + e + f, GeeksforGeeks) == c by {
      Select(a, b, c, d, e, f, GeeksforGeeks);
      OfPlatformOf(a, GeeksforGeeks, CodeChef);
      OfPlatformOf(b, GeeksforGeeks, Codeforces);
      OfPlatformOf(c, GeeksforGeeks, GeeksforGeeks);
      OfPlatformOf(d, GeeksforGeeks, LeetCode);
      OfPlatformOf(e, GeeksforGeeks, HackerEarth);
      OfPlatformOf(f, GeeksforGeeks, AtCoder);
    }
    assert OfPlatform(a + b + c + d + e + f, LeetCode) == d by {
      Select(a, b, c, d, e, f, LeetCode);
      OfPlatformOf(a, LeetCode, CodeChef);
      OfPlatformOf(b, LeetCode, Codeforces);
      OfPlatformOf(c, LeetCode, GeeksforGeeks);
      OfPlatformOf(d, LeetCode, LeetCode);
      OfPlatformOf(e, LeetCode, HackerEarth);
      OfPlatformOf(f, LeetCode, AtCoder);
    }
    assert OfPlatform(a + b + c + d + e + f, HackerEarth) == e by {
      Select(a, b, c, d, e, f, HackerEarth);
      OfPlatformOf(a, HackerEarth, CodeChef);
      OfPlatformOf(b, HackerEarth, Codeforces);
      OfPlatformOf(c, HackerEarth, GeeksforGeeks);
      OfPlatformOf(d, HackerEarth, LeetCode);
      OfPlatformOf(e, HackerEarth, HackerEarth);
      OfPlatformOf(f, HackerEarth, AtCoder);
    }
    assert OfPlatform(a + b + c + d + e + f, AtCoder) == f by {
      Select(a, b, c, d, e, f, AtCoder);
      OfPlatformOf(a, AtCoder, CodeChef);
      OfPlatformOf(b, AtCoder, Codeforces);
      OfPlatformOf(c, AtCoder, GeeksforGeeks);
      OfPlatformOf(d, AtCoder, LeetCode);
      OfPlatformOf(e, AtCoder, HackerEarth);
      OfPlatformOf(f, AtCoder, AtCoder);
    }
  }

  lemma Select(a: seq<Contest>, b: seq<Contest>, c: seq<Contest>, d: seq<Contest>,
               e: seq<Contest>, f: seq<Contest>, p: Platform)
    ensures OfPlatform(a + b + c + d + e + f, p)
            == OfPlatform(a, p) + OfPlatform(b, p) + OfPlatform(c, p) + OfPlatform(d, p)
               + OfPlatform(e, p) + OfPlatform(f, p)
  {
    OfPlatformAppend(a + b + c + d + e, f, p);
    OfPlatformAppend(a + b + c + d, e, p);
    OfPlatformAppend(a + b + c, d, p);
    OfPlatformAppend(a + b, c, p);
    OfPlatformAppend(a, b, p);
  }

  /** Every adapter labels its records with its own platform. */
  lemma AdaptersLabel(inputs: Inputs)
    ensures CodeChefContests(inputs.codechef).Returned? ==>
              AllFrom(CodeChefContests(inputs.codechef).contests, CodeChef)
    ensures CodeforcesContests(inputs.codeforces, inputs.now).Returned? ==>
              AllFrom(CodeforcesContests(inputs.codeforces, inputs.now).contests, Codeforces)
    ensures GeeksforGeeksContests(inputs.geeksforgeeks).Returned? ==>
              AllFrom(GeeksforGeeksContests(inputs.geeksforgeeks).contests, GeeksforGeeks)
    ensures LeetCodeContests(inputs.leetcode, inputs.now).Returned? ==>
              AllFrom(LeetCodeContests(inputs.leetcode, inputs.now).contests, LeetCode)
    ensures AllFrom(HackerEarthContests(inputs.hackerearth, inputs.details, inputs.parseIso), HackerEarth)
    ensures AllFrom(AtCoderContests(inputs.atcoder, inputs.parseTime), AtCoder)
  {
    if inputs.codechef.Ok? {
      var lists := inputs.codechef.body;
      EmittedSatisfy(lists.present + lists.future, CodeChefStep, Labelled(CodeChef));
    }
    if inputs.codeforces.Ok? {
      EmittedSatisfy(inputs.codeforces.body, CodeforcesSteps(inputs.now), Labelled(Codeforces));
    }
    if inputs.geeksforgeeks.Ok? {
      EmittedSatisfy(inputs.geeksforgeeks.body, GeeksforGeeksStep, Labelled(GeeksforGeeks));
    }
    if inputs.leetcode.Ok? {
      EmittedSatisfy(inputs.leetcode.body, LeetCodeSteps(inputs.now), Labelled(LeetCode));
    }
    if inputs.hackerearth.Fetched? {
      EmittedSatisfy(inputs.hackerearth.items, HackerEarthSteps(inputs.details, inputs.parseIso),
                     Labelled(HackerEarth));
    }
    if inputs.atcoder.Fetched? {
      EmittedSatisfy(inputs.atcoder.items, AtCoderSteps(inputs.parseTime), Labelled(AtCoder));
    }
  }

  /** The script's list, when it has one, holds each platform's records
      exactly as that adapter returned them, and nothing else. */
  lemma AllContestsKeepsEach(inputs: Inputs)
    ensures AllContests(inputs).Returned? ==>
      var r := AllContests(inputs).contests;
      OfPlatform(r, CodeChef) == CodeChefContests(inputs.codechef).contests
      && OfPlatform(r, Codeforces) == CodeforcesContests(inputs.codeforces, inputs.now).contests
      && OfPlatform(r, GeeksforGeeks) == GeeksforGeeksContests(inputs.geeksforgeeks).contests
      && OfPlatform(r, LeetCode) == LeetCodeContests(inputs.leetcode, inputs.now).contests
      && OfPlatform(r, HackerEarth) == HackerEarthContests(inputs.hackerearth, inputs.details, inputs.parseIso)
      && OfPlatform(r, AtCoder) == AtCoderContests(inputs.atcoder, inputs.parseTime)
  {
    var codechef := CodeChefContests(inputs.codechef);
    var codeforces := CodeforcesContests(inputs.codeforces, inputs.now);
    var geeksforgeeks := GeeksforGeeksContests(inputs.geeksforgeeks);
    var leetcode := LeetCodeContests(inputs.leetcode, inputs.now);
    if codechef.Returned? && codeforces.Returned? && geeksforgeeks.Returned? && leetcode.Returned? {
      AdaptersLabel(inputs);
      CombineKeepsEach(codechef, codeforces, geeksforgeeks, leetcode,
                       HackerEarthContests(inputs.hackerearth, inputs.details, inputs.parseIso),
                       AtCoderContests(inputs.atcoder, inputs.parseTime));
    }
  }
}
