/**
 * Fullscreen capability detection in `setup` (src/js/winbox.js:237-253):
 * the first request method the platform offers, and the exit method's name
 * derived from it by JavaScript's first-occurrence `String.replace`.
 */
module Prefix {

  /** `pat` occurs in `s` starting at position `j`. */
  predicate OccursAt(s: string, pat: string, j: nat) {
    j + |pat| <= |s| && s[j..j + |pat|] == pat
  }

  /** `s.indexOf(pat)`: the first position where `pat` occurs in `s`, or -1. */
  function Find(s: string, pat: string): (i: int)
    ensures i == -1 || (0 <= i && OccursAt(s, pat, i))
    ensures forall j: nat :: (i < 0 || j < i) ==> !OccursAt(s, pat, j)
    decreases |s|
  {
    if |s| < |pat| then -1
    else if s[..|pat|] == pat then 0
    else
      var i := Find(s[1..], pat);
      assert forall j: nat :: 1 <= j ==> OccursAt(s, pat, j) == OccursAt(s[1..], pat, j - 1);
      if i < 0 then -1 else i + 1
  }

  /** `s.replace(pat, rep)` for a string pattern: only the first occurrence is replaced. */
  function ReplaceFirst(s: string, pat: string, rep: string): string
    decreases |s|
  {
    if |s| < |pat| then s
    else if s[..|pat|] == pat then rep + s[|pat|..]
    else [s[0]] + ReplaceFirst(s[1..], pat, rep)
  }

  /** `ReplaceFirst` replaces exactly the occurrence `Find` locates, and leaves the string alone when there is none. */
  lemma {:induction false} ReplaceFirstAtFind(s: string, pat: string, rep: string)
    ensures ReplacesFound(s, pat, rep)
    decreases |s|
  {
    if |s| < |pat| {
    } else if s[..|pat|] == pat {
      assert s[..0] + rep + s[|pat|..] == rep + s[|pat|..];
    } else {
      ReplaceFirstAtFind(s[1..], pat, rep);
      ReplacesFoundCons(s, pat, rep);
    }
  }

  /** The statement of `ReplaceFirstAtFind` for one string. */
  predicate ReplacesFound(s: string, pat: string, rep: string) {
    var i := Find(s, pat);
    ReplaceFirst(s, pat, rep) == if i < 0 then s else s[..i] + rep + s[i + |pat|..]
  }

  /** Where no occurrence starts at the front, the statement carries over from the tail. */
  lemma ReplacesFoundCons(s: string, pat: string, rep: string)
    requires |s| >= |pat| && s[..|pat|] != pat
    requires ReplacesFound(s[1..], pat, rep)
    ensures ReplacesFound(s, pat, rep)
  {
    var k := Find(s[1..], pat);
    assert ReplaceFirst(s, pat, rep) == [s[0]] + ReplaceFirst(s[1..], pat, rep);
    assert Find(s, pat) == if k < 0 then -1 else k + 1;
    if k < 0 {
      assert [s[0]] + s[1..] == s;
      assert ReplaceFirst(s, pat, rep) == s;
    } else {
      SpliceCons(s, k, |pat|, rep);
      assert ReplaceFirst(s, pat, rep) == s[..k + 1] + rep + s[k + 1 + |pat|..];
    }
  }

  /** Putting the first character back in front of a splice of the tail is the splice one place further on. */
  lemma SpliceCons(s: string, k: nat, n: nat, rep: string)
    requires 1 + k + n <= |s|
    ensures [s[0]] + (s[1..][..k] + rep + s[1..][k + n..]) == s[..k + 1] + rep + s[k + 1 + n..]
  {
    assert s[..k + 1] == [s[0]] + s[1..][..k];
    assert s[k + 1 + n..] == s[1..][k + n..];
  }

  /** The request methods `setup` probes, in order. */
  const Candidates: seq<string> :=
    ["requestFullscreen", "msRequestFullscreen", "webkitRequestFullscreen", "mozRequestFullscreen"]

  /** `prefix_request`: the first candidate the platform's body element offers, else "". */
  function DetectRequest(offered: set<string>): (r: string)
    ensures r == "" <==> forall c :: c in Candidates ==> c !in offered
    ensures r != "" ==> r in offered
    ensures r != "" ==>
      exists k :: 0 <= k < |Candidates| && Candidates[k] == r && (forall j :: 0 <= j < k ==> Candidates[j] !in offered)
  {
    if Candidates[0] in offered then Candidates[0]
    else if Candidates[1] in offered then Candidates[1]
    else if Candidates[2] in offered then Candidates[2]
    else if Candidates[3] in offered then Candidates[3]
    else ""
  }

  /** `prefix_exit`, derived from `prefix_request` by three first-occurrence replacements. */
  function ExitName(request: string): (r: string)
    ensures r == "" <==> request == ""
  {
    if request == "" then ""
    else
      var r1 := ReplaceFirst(request, "request", "exit");
      var r2 := ReplaceFirst(r1, "mozRequest", "mozCancel");
      ReplaceKeepsNonEmpty(request, "request", "exit");
      ReplaceKeepsNonEmpty(r1, "mozRequest", "mozCancel");
      ReplaceKeepsNonEmpty(r2, "Request", "Exit");
      ReplaceFirst(r2, "Request", "Exit")
  }

  /** Replacing with a non-empty string never leaves a non-empty string empty. */
  lemma ReplaceKeepsNonEmpty(s: string, pat: string, rep: string)
    requires s != [] && rep != []
    ensures ReplaceFirst(s, pat, rep) != []
  {
    ReplaceFirstAtFind(s, pat, rep);
    var i := Find(s, pat);
    if i >= 0 {
      assert (s[..i] + rep + s[i + |pat|..])[i] == rep[0];
    }
  }

  /** Replacing in `a + pat + b`, where no occurrence can start inside `a`, replaces the one right after `a`. */
  lemma {:induction false} ReplaceAfter(a: string, pat: string, b: string, rep: string)
    requires pat != [] && pat[0] !in a
    ensures ReplaceFirst(a + pat + b, pat, rep) == a + rep + b
    decreases |a|
  {
    if a == [] {
      assert a + pat + b == pat + b;
      assert (pat + b)[..|pat|] == pat;
      assert (pat + b)[|pat|..] == b;
    } else {
      var s := a + pat + b;
      assert s[0] == a[0];
      assert s[1..] == a[1..] + pat + b;
      ReplaceAfter(a[1..], pat, b, rep);
    }
  }

  /**
   * When the `p`-th character of `pat` is missing from `a`, and `b` is too
   * short to hold that character of an occurrence, `a + b` holds no
   * occurrence and nothing is replaced.
   */
  lemma {:induction false} ReplaceAbsent(a: string, b: string, pat: string, rep: string, p: nat)
    requires p < |pat| && |b| + p < |pat|
    requires pat[p] !in a
    ensures ReplaceFirst(a + b, pat, rep) == a + b
    decreases |a|
  {
    var s := a + b;
    if |s| >= |pat| {
      assert s[..|pat|][p] == a[p];
      assert s[1..] == a[1..] + b;
      ReplaceAbsent(a[1..], b, pat, rep, p);
    }
  }

  /** `ExitName` as its three replacement steps. */
  lemma ExitNameSteps(request: string, r1: string, r2: string, r3: string)
    requires request != ""
    requires ReplaceFirst(request, "request", "exit") == r1
    requires ReplaceFirst(r1, "mozRequest", "mozCancel") == r2
    requires ReplaceFirst(r2, "Request", "Exit") == r3
    ensures ExitName(request) == r3
  {
  }

  // The individual replacement steps of `ExitName` for each request method.
  // They are proof steps for `ExitNames`, one literal replacement each: proved
  // together, the chains of literal strings exceed the solver's budget.

  lemma StandardStep1()
    ensures ReplaceFirst("requestFullscreen", "request", "exit") == "exitFullscreen"
  {
    StandardParts();
    ReplaceAfter("", "request", "Fullscreen", "exit");
  }

  lemma StandardParts()
    ensures "requestFullscreen" == "" + "request" + "Fullscreen"
    ensures "" + "exit" + "Fullscreen" == "exitFullscreen"
  {
  }

  lemma StandardStep2()
    ensures ReplaceFirst("exitFullscreen", "mozRequest", "mozCancel") == "exitFullscreen"
  {
    assert "exitFullscreen" == "exitFullscreen" + "";
    ReplaceAbsent("exitFullscreen", "", "mozRequest", "mozCancel", 0);
  }

  lemma StandardStep3()
    ensures ReplaceFirst("exitFullscreen", "Request", "Exit") == "exitFullscreen"
  {
    assert "exitFullscreen" == "exitFullscreen" + "";
    ReplaceAbsent("exitFullscreen", "", "Request", "Exit", 0);
  }

  lemma MsStep1()
    ensures ReplaceFirst("msRequestFullscreen", "request", "exit") == "msRequestFullscreen"
  {
    assert "msRequestFullscreen" == "msRequestFull" + "screen";
    ReplaceAbsent("msRequestFull", "screen", "request", "exit", 0);
  }

  lemma MsStep2()
    ensures ReplaceFirst("msRequestFullscreen", "mozRequest", "mozCancel") == "msRequestFullscreen"
  {
    assert "msRequestFullscreen" == "msRequestFullscreen" + "";
    ReplaceAbsent("msRequestFullscreen", "", "mozRequest", "mozCancel", 1);
  }

  lemma MsStep3()
    ensures ReplaceFirst("msRequestFullscreen", "Request", "Exit") == "msExitFullscreen"
  {
    MsParts();
    ReplaceAfter("ms", "Request", "Fullscreen", "Exit");
  }

  lemma MsParts()
    ensures "msRequestFullscreen" == "ms" + "Request" + "Fullscreen"
    ensures "ms" + "Exit" + "Fullscreen" == "msExitFullscreen"
  {
  }

  lemma WebkitStep1()
    ensures ReplaceFirst("webkitRequestFullscreen", "request", "exit") == "webkitRequestFullscreen"
  {
    assert "webkitRequestFullscreen" == "webkitRequestFull" + "screen";
    ReplaceAbsent("webkitRequestFull", "screen", "request", "exit", 0);
  }

  lemma WebkitStep2()
    ensures ReplaceFirst("webkitRequestFullscreen", "mozRequest", "mozCancel") == "webkitRequestFullscreen"
  {
    assert "webkitRequestFullscreen" == "webkitRequestFullscreen" + "";
    ReplaceAbsent("webkitRequestFullscreen", "", "mozRequest", "mozCancel", 1);
  }

  lemma WebkitStep3()
    ensures ReplaceFirst("webkitRequestFullscreen", "Request", "Exit") == "webkitExitFullscreen"
  {
    WebkitParts();
    ReplaceAfter("webkit", "Request", "Fullscreen", "Exit");
  }

  lemma WebkitParts()
    ensures "webkitRequestFullscreen" == "webkit" + "Request" + "Fullscreen"
    ensures "webkit" + "Exit" + "Fullscreen" == "webkitExitFullscreen"
  {
  }

  lemma MozStep1()
    ensures ReplaceFirst("mozRequestFullscreen", "request", "exit") == "mozRequestFullscreen"
  {
    assert "mozRequestFullscreen" == "mozRequestFull" + "screen";
    ReplaceAbsent("mozRequestFull", "screen", "request", "exit", 0);
  }

  lemma MozStep2()
    ensures ReplaceFirst("mozRequestFullscreen", "mozRequest", "mozCancel") == "mozCancelFullscreen"
  {
    MozParts();
    ReplaceAfter("", "mozRequest", "Fullscreen", "mozCancel");
  }

  lemma MozParts()
    ensures "mozRequestFullscreen" == "" + "mozRequest" + "Fullscreen"
    ensures "" + "mozCancel" + "Fullscreen" == "mozCancelFullscreen"
  {
  }

  lemma MozStep3()
    ensures ReplaceFirst("mozCancelFullscreen", "Request", "Exit") == "mozCancelFullscreen"
  {
    assert "mozCancelFullscreen" == "mozCancelFullscreen" + "";
    ReplaceAbsent("mozCancelFullscreen", "", "Request", "Exit", 0);
  }

  /** Each request method is paired with its platform's exit method, and no support gives no exit method. */
  lemma ExitNames()
    ensures ExitName("requestFullscreen") == "exitFullscreen"
    ensures ExitName("msRequestFullscreen") == "msExitFullscreen"
    ensures ExitName("webkitRequestFullscreen") == "webkitExitFullscreen"
    ensures ExitName("mozRequestFullscreen") == "mozCancelFullscreen"
    ensures ExitName("") == ""
  {
    StandardStep1(); StandardStep2(); StandardStep3();
    ExitNameSteps("requestFullscreen", "exitFullscreen", "exitFullscreen", "exitFullscreen");
    MsStep1(); MsStep2(); MsStep3();
    ExitNameSteps("msRequestFullscreen", "msRequestFullscreen", "msRequestFullscreen", "msExitFullscreen");
    WebkitStep1(); WebkitStep2(); WebkitStep3();
    ExitNameSteps("webkitRequestFullscreen", "webkitRequestFullscreen", "webkitRequestFullscreen", "webkitExitFullscreen");
    MozStep1(); MozStep2(); MozStep3();
    ExitNameSteps("mozRequestFullscreen", "mozRequestFullscreen", "mozCancelFullscreen", "mozCancelFullscreen");
  }

  /** A detected request method always has a non-empty exit method. */
  lemma ExitOfDetected(offered: set<string>)
    ensures DetectRequest(offered) != "" ==> ExitName(DetectRequest(offered)) != ""
  {
    ExitNames();
  }
}
