/**
 * `InstagramClient.get_user_id`: normalise the username, then try five
 * lookups in a fixed order.  The first one that produces an id wins and no
 * later one is tried; the failures of the first four are swallowed, the fifth
 * swallows only `InstagramError`, and when nothing produced an id the resolver
 * raises a 404 that names the normalised username.
 *
 * Each lookup is an oracle `lookup(strategy, username)`; the functions of the
 * Strategies module say what each one does with its network reply.
 */
module IdentityResolver {
  import opened Wrappers
  import opened Errors
  import opened PyText
  import opened Strategies

  datatype Strategy = PageScrape | GraphQLSearch | WebProfileInfo | TopSearch | MobileUsernameInfo

  /** The order in which `get_user_id` tries the strategies. */
  const Order: seq<Strategy> := [PageScrape, GraphQLSearch, WebProfileInfo, TopSearch, MobileUsernameInfo]

  /**
   * How `username.lower().strip().lstrip("@")` cuts `u`: `u[..a]` and `u[j..]`
   * are the whitespace `strip()` removes, `u[a..i]` is the run of '@' that
   * `lstrip("@")` removes, and `u[i..j]` is what is kept.
   */
  predicate NormalizedSpan(u: string, a: nat, i: nat, j: nat)
  {
    a <= i <= j <= |u| &&
    (forall p :: 0 <= p < a ==> IsSpace(u[p])) &&
    (forall p :: a <= p < i ==> u[p] == '@') &&
    (forall p :: j <= p < |u| ==> IsSpace(u[p])) &&
    (a < j ==> !IsSpace(u[a]) && !IsSpace(u[j - 1]))
  }

  /** `username.lower().strip().lstrip("@")`. */
  function Normalize(username: string): (r: string)
    ensures r == [] || r[0] != '@'
    ensures forall i :: 0 <= i < |r| ==> !IsUpper(r[i])
    ensures exists a: nat, i: nat, j: nat :: NormalizedSpan(username, a, i, j) && r == Lower(username)[i..j]
  {
    NormalizeCuts(username);
    LStripAt(Strip(Lower(username)))
  }

  lemma {:induction false} NormalizeCuts(username: string)
    ensures exists a: nat, i: nat, j: nat ::
      NormalizedSpan(username, a, i, j) && LStripAt(Strip(Lower(username))) == Lower(username)[i..j]
    ensures forall p :: 0 <= p < |LStripAt(Strip(Lower(username)))| ==> !IsUpper(LStripAt(Strip(Lower(username)))[p])
  {
    var l := Lower(username);
    StripThenLStrip(l);
    var a: nat, i: nat, j: nat :| NormalizedSpan(l, a, i, j) && LStripAt(Strip(l)) == l[i..j];
    SpanOfLower(username, a, i, j);
    LowerSliceHasNoUpper(username, i, j);
  }

  /** Surrounding spaces and any number of leading '@' go; the rest is lower-cased. */
  lemma {:induction false} NormalizePadded(ats: string, name: string)
    requires forall p :: 0 <= p < |ats| ==> ats[p] == '@'
    requires name != [] && name[0] != '@' && !IsSpace(name[0]) && !IsSpace(name[|name| - 1])
    ensures Normalize(" " + ats + name + " ") == Lower(name)
  {
    var low := Lower(name);
    var x := ats + low;
    LowerCharKeeps(name[0]);
    LowerCharKeeps(name[|name| - 1]);
    LowerPadded(ats, name);
    assert x[|x| - 1] == low[|low| - 1];
    assert x[0] == if ats == [] then low[0] else '@';
    StripSpacePadded(x);
    LStripAtRun(ats, low);
  }

  lemma {:induction false} LowerPadded(ats: string, name: string)
    requires forall p :: 0 <= p < |ats| ==> ats[p] == '@'
    ensures Lower(" " + ats + name + " ") == " " + (ats + Lower(name)) + " "
  {
    var u := " " + ats + name + " ";
    var v := " " + (ats + Lower(name)) + " ";
    forall p | 0 <= p < |u| ensures Lower(u)[p] == v[p] {
      if 1 <= p <= |ats| {
        assert u[p] == ats[p - 1];
      } else if |ats| < p < |u| - 1 {
        assert u[p] == name[p - 1 - |ats|];
      }
    }
  }

  /** `strip()` and then `lstrip("@")` of any text cut it as `NormalizedSpan` says. */
  lemma {:induction false} StripThenLStrip(x: string)
    ensures exists a: nat, i: nat, j: nat :: NormalizedSpan(x, a, i, j) && LStripAt(Strip(x)) == x[i..j]
  {
    var s := Strip(x);
    var a: nat, j: nat :| SpaceAround(x, a, j) && s == x[a..j];
    LStripAtBounds(x, a, j);
    var i: nat :| a <= i <= j && LStripAt(x[a..j]) == x[i..j] && (forall q :: a <= q < i ==> x[q] == '@');
    assert NormalizedSpan(x, a, i, j);
  }

  /** `lstrip("@")` of the slice `l[a..j]` removes a run `l[a..i]` of '@'. */
  lemma {:induction false} LStripAtBounds(l: string, a: nat, j: nat)
    requires a <= j <= |l|
    ensures exists i: nat ::
      a <= i <= j && LStripAt(l[a..j]) == l[i..j] && (forall q :: a <= q < i ==> l[q] == '@')
  {
    var s := l[a..j];
    var k :| 0 <= k <= |s| && LStripAt(s) == s[k..] && forall q :: 0 <= q < k ==> s[q] == '@';
    forall q | a <= q < a + k ensures l[q] == '@' {
      assert s[q - a] == l[q];
    }
    assert LStripAt(l[a..j]) == l[a + k..j];
  }

  /** Lower-casing moves no whitespace and no '@', so the cuts of the lower-cased text are cuts of the text. */
  lemma {:induction false} SpanOfLower(u: string, a: nat, i: nat, j: nat)
    requires NormalizedSpan(Lower(u), a, i, j)
    ensures NormalizedSpan(u, a, i, j)
  {
    var l := Lower(u);
    forall p | 0 <= p < |u| ensures (IsSpace(l[p]) <==> IsSpace(u[p])) && (l[p] == '@' <==> u[p] == '@') {
      LowerCharKeeps(u[p]);
    }
  }

  lemma {:induction false} LowerSliceHasNoUpper(u: string, i: nat, j: nat)
    requires i <= j <= |u|
    ensures forall p :: 0 <= p < j - i ==> !IsUpper(Lower(u)[i..j][p])
  {
    forall p | 0 <= p < j - i ensures !IsUpper(Lower(u)[i..j][p]) {
      assert Lower(u)[i..j][p] == Lower(u)[i + p];
    }
  }

  /** The error raised when every strategy failed. */
  function NotFound(username: string): Exception
  {
    InstagramError("User '" + username + "' not found. Please check the username.", 404)
  }

  /** What the chain does after strategy `s` produced `o`. */
  datatype Step = Win(id: string) | Continue | Abort(error: Exception)

  /**
   * Strategies 1 to 4 win only with a non-empty id (`if user_id:`) and every
   * exception they raise is swallowed.  Strategy 5 returns whatever id it got,
   * swallows `InstagramError` and lets every other exception escape.
   */
  function StepOf(s: Strategy, o: Outcome): (r: Step)
    ensures s != MobileUsernameInfo ==> !r.Abort?
    ensures r.Abort? <==> s == MobileUsernameInfo && o.Raised? && !o.error.InstagramError?
    ensures r.Win? ==> o == Returned(Some(r.id))
    ensures r.Win? && s != MobileUsernameInfo ==> r.id != ""
    ensures o.Returned? && o.id.Some? && (s == MobileUsernameInfo || o.id.value != "") ==> r == Win(o.id.value)
  {
    if s != MobileUsernameInfo then
      if o.Returned? && o.id.Some? && o.id.value != "" then Win(o.id.value) else Continue
    else
      match o
      case Returned(Some(id)) => Win(id)
      case Returned(None) => Continue
      case Raised(e) => if e.InstagramError? then Continue else Abort(e)
  }

  /** The chain over `strategies`, each asked about `name`. */
  function Chain(strategies: seq<Strategy>, name: string, lookup: (Strategy, string) -> Outcome): (r: Result<string, Exception>)
    ensures r.Success? ==>
      exists k :: 0 <= k < |strategies| && StepOf(strategies[k], lookup(strategies[k], name)) == Win(r.value)
    ensures r.Failure? && r.error != NotFound(name) ==>
      exists k :: 0 <= k < |strategies| && StepOf(strategies[k], lookup(strategies[k], name)) == Abort(r.error)
  {
    if strategies == [] then Failure(NotFound(name))
    else
      match StepOf(strategies[0], lookup(strategies[0], name))
      case Win(id) => Success(id)
      case Abort(e) => Failure(e)
      case Continue =>
        assert forall k :: 0 <= k < |strategies| - 1 ==> strategies[1..][k] == strategies[k + 1];
        Chain(strategies[1..], name, lookup)
  }

  /** How many strategies of `strategies` the chain invokes: at least the first, at most all. */
  function Invoked(strategies: seq<Strategy>, name: string, lookup: (Strategy, string) -> Outcome): (n: nat)
    ensures n <= |strategies|
    ensures strategies != [] ==> 1 <= n
  {
    if strategies == [] then 0
    else if StepOf(strategies[0], lookup(strategies[0], name)).Continue? then
      1 + Invoked(strategies[1..], name, lookup)
    else 1
  }

  /**
   * What `get_user_id(username)` returns or raises: the chain of the five
   * strategies on the normalised username.  The 404 that names that username
   * is raised exactly when all five fell through, and a returned id is one a
   * strategy supplied.
   */
  function Resolve(username: string, lookup: (Strategy, string) -> Outcome): (r: Result<string, Exception>)
    ensures r == Failure(NotFound(Normalize(username))) <==> AllContinue(Order, Normalize(username), lookup, 5)
    ensures r.Success? ==>
      exists k :: 0 <= k < 5 && Supplies(Order[k], lookup(Order[k], Normalize(username)), r.value)
  {
    var name := Normalize(username);
    NotFoundExactlyWhenAllFallThrough(Order, name, lookup);
    if Chain(Order, name, lookup).Success? then
      ChainIdComesFromAStrategy(Order, name, lookup);
      Chain(Order, name, lookup)
    else
      Chain(Order, name, lookup)
  }

  /** Every strategy before `k` fell through to the next one. */
  predicate AllContinue(strategies: seq<Strategy>, name: string, lookup: (Strategy, string) -> Outcome, k: nat)
    requires k <= |strategies|
  {
    forall j :: 0 <= j < k ==> StepOf(strategies[j], lookup(strategies[j], name)).Continue?
  }

  /** The first strategy that does not fall through decides the result, and it is the last one invoked. */
  lemma {:induction false} FirstDecisiveStrategyDecides(
    strategies: seq<Strategy>, name: string, lookup: (Strategy, string) -> Outcome, k: nat)
    requires k < |strategies| && AllContinue(strategies, name, lookup, k)
    requires !StepOf(strategies[k], lookup(strategies[k], name)).Continue?
    ensures Invoked(strategies, name, lookup) == k + 1
    ensures var st := StepOf(strategies[k], lookup(strategies[k], name));
      Chain(strategies, name, lookup) == if st.Win? then Success(st.id) else Failure(st.error)
  {
    if k > 0 {
      FirstDecisiveStrategyDecides(strategies[1..], name, lookup, k - 1);
    }
  }

  /** Strategy `j` is invoked exactly when every strategy before it fell through. */
  lemma {:induction false} InvokedExactlyAfterFallThrough(
    strategies: seq<Strategy>, name: string, lookup: (Strategy, string) -> Outcome, j: nat)
    requires j < |strategies|
    ensures j < Invoked(strategies, name, lookup) <==> AllContinue(strategies, name, lookup, j)
  {
    if j > 0 {
      InvokedExactlyAfterFallThrough(strategies[1..], name, lookup, j - 1);
      if StepOf(strategies[0], lookup(strategies[0], name)).Continue? {
        assert AllContinue(strategies, name, lookup, j) <==> AllContinue(strategies[1..], name, lookup, j - 1) by {
          forall i | 0 <= i < j - 1 ensures strategies[1..][i] == strategies[i + 1] { }
        }
      }
    }
  }

  /** The chain raises the not-found error exactly when every strategy fell through. */
  lemma {:induction false} NotFoundExactlyWhenAllFallThrough(
    strategies: seq<Strategy>, name: string, lookup: (Strategy, string) -> Outcome)
    ensures Chain(strategies, name, lookup) == Failure(NotFound(name))
      <==> AllContinue(strategies, name, lookup, |strategies|)
    ensures AllContinue(strategies, name, lookup, |strategies|) ==> Invoked(strategies, name, lookup) == |strategies|
  {
    if strategies != [] {
      NotFoundExactlyWhenAllFallThrough(strategies[1..], name, lookup);
      if StepOf(strategies[0], lookup(strategies[0], name)).Continue? {
        assert AllContinue(strategies, name, lookup, |strategies|)
          <==> AllContinue(strategies[1..], name, lookup, |strategies| - 1) by {
          forall i | 0 <= i < |strategies| - 1 ensures strategies[1..][i] == strategies[i + 1] { }
        }
      }
    }
  }

  /** Strategy `s`, having produced `o`, supplied `id` in a way the chain accepts. */
  predicate Supplies(s: Strategy, o: Outcome, id: string) {
    o == Returned(Some(id)) && (s != MobileUsernameInfo ==> id != "")
  }

  /**
   * An id the chain returns is the one some strategy returned, and only the
   * last strategy may return an empty one.
   */
  lemma {:induction false} ChainIdComesFromAStrategy(
    strategies: seq<Strategy>, name: string, lookup: (Strategy, string) -> Outcome)
    requires Chain(strategies, name, lookup).Success?
    ensures exists k :: 0 <= k < |strategies| && Supplies(strategies[k], lookup(strategies[k], name), Chain(strategies, name, lookup).value)
  {
    var id := Chain(strategies, name, lookup).value;
    if !StepOf(strategies[0], lookup(strategies[0], name)).Win? {
      ChainIdComesFromAStrategy(strategies[1..], name, lookup);
      var k :| 0 <= k < |strategies[1..]| &&
        Supplies(strategies[1..][k], lookup(strategies[1..][k], name), id);
      assert strategies[1..][k] == strategies[k + 1];
    } else {
      assert Supplies(strategies[0], lookup(strategies[0], name), id);
    }
  }

  /**
   * The only errors that leave the chain are the not-found error and an
   * exception other than `InstagramError` raised by the mobile lookup.
   */
  lemma {:induction false} OnlyMobileFaultsEscape(
    strategies: seq<Strategy>, name: string, lookup: (Strategy, string) -> Outcome)
    requires Chain(strategies, name, lookup).Failure?
    ensures var e := Chain(strategies, name, lookup).error;
      || e == NotFound(name)
      || (MobileUsernameInfo in strategies && lookup(MobileUsernameInfo, name) == Raised(e) && !e.InstagramError?)
  {
    if strategies == [] {
    } else if StepOf(strategies[0], lookup(strategies[0], name)).Continue? {
      OnlyMobileFaultsEscape(strategies[1..], name, lookup);
      var e := Chain(strategies, name, lookup).error;
      if MobileUsernameInfo in strategies[1..] {
        var k :| 0 <= k < |strategies[1..]| && strategies[1..][k] == MobileUsernameInfo;
        assert strategies[k + 1] == MobileUsernameInfo;
      }
    } else {
      assert strategies[0] == MobileUsernameInfo;
    }
  }

  /** One step of the chain over the suffix of `Order` that starts at strategy `k`. */
  lemma ChainAt(k: nat, name: string, lookup: (Strategy, string) -> Outcome)
    requires k < |Order|
    ensures var st := StepOf(Order[k], lookup(Order[k], name));
      && (st.Win? ==> Chain(Order[k..], name, lookup) == Success(st.id) && Invoked(Order[k..], name, lookup) == 1)
      && (st.Abort? ==> Chain(Order[k..], name, lookup) == Failure(st.error) && Invoked(Order[k..], name, lookup) == 1)
      && (st.Continue? ==>
            && Chain(Order[k..], name, lookup) == Chain(Order[k + 1..], name, lookup)
            && Invoked(Order[k..], name, lookup) == 1 + Invoked(Order[k + 1..], name, lookup))
  {
    assert Order[k..][0] == Order[k];
    assert Order[k..][1..] == Order[k + 1..];
  }

  /**
   * `get_user_id(username)`, with the calls it makes: every strategy it
   * invokes, in order, and the username it passes.
   */
  method GetUserId(username: string, lookup: (Strategy, string) -> Outcome)
    returns (r: Result<string, Exception>, calls: seq<(Strategy, string)>)
    ensures r == Resolve(username, lookup)
    ensures |calls| == Invoked(Order, Normalize(username), lookup)
    ensures forall i :: 0 <= i < |calls| ==> calls[i] == (Order[i], Normalize(username))
  {
    var name := Normalize(username);
    r, calls := TryStrategies(name, lookup);
  }

  /**
   * The first `k` strategies fell through: the chain and the count are those
   * of the remaining strategies, and `calls` lists the `k` invoked so far.
   */
  ghost predicate FellThrough(k: nat, name: string, lookup: (Strategy, string) -> Outcome, calls: seq<(Strategy, string)>)
    requires k <= |Order|
  {
    && Chain(Order, name, lookup) == Chain(Order[k..], name, lookup)
    && Invoked(Order, name, lookup) == k + Invoked(Order[k..], name, lookup)
    && |calls| == k
    && forall i :: 0 <= i < k ==> calls[i] == (Order[i], name)
  }

  /** Trying strategy `k` after the first `k` fell through: it decides the chain, or the chain falls through one more. */
  lemma TryNext(k: nat, name: string, lookup: (Strategy, string) -> Outcome, calls: seq<(Strategy, string)>)
    requires k < |Order| && FellThrough(k, name, lookup, calls)
    ensures var st := StepOf(Order[k], lookup(Order[k], name));
      var next := calls + [(Order[k], name)];
      && (st.Continue? ==> FellThrough(k + 1, name, lookup, next))
      && (st.Win? ==> Chain(Order, name, lookup) == Success(st.id) && Invoked(Order, name, lookup) == |next|)
      && (st.Abort? ==> Chain(Order, name, lookup) == Failure(st.error) && Invoked(Order, name, lookup) == |next|)
      && forall i :: 0 <= i < |next| ==> next[i] == (Order[i], name)
  {
    ChainAt(k, name, lookup);
    var next := calls + [(Order[k], name)];
    assert forall i :: 0 <= i < k ==> next[i] == calls[i];
  }

  /**
   * One `try` block: strategy `k` is invoked and, through `StepOf`, either
   * decides the result or lets the chain fall through to the next block.
   */
  method Attempt(k: nat, name: string, lookup: (Strategy, string) -> Outcome, calls: seq<(Strategy, string)>)
    returns (decided: bool, r: Result<string, Exception>, next: seq<(Strategy, string)>)
    requires k < |Order| && FellThrough(k, name, lookup, calls)
    ensures next == calls + [(Order[k], name)]
    ensures decided ==> r == Chain(Order, name, lookup) && |next| == Invoked(Order, name, lookup)
    ensures !decided ==> FellThrough(k + 1, name, lookup, next)
    ensures forall i :: 0 <= i < |next| ==> next[i] == (Order[i], name)
  {
    var o := lookup(Order[k], name);
    TryNext(k, name, lookup, calls);
    next := calls + [(Order[k], name)];
    match StepOf(Order[k], o) {
      case Win(id) => return true, Success(id), next;
      case Abort(e) => return true, Failure(e), next;
      case Continue => return false, Failure(NotFound(name)), next;
    }
  }

  /** The five `try` blocks of `get_user_id`, run on the normalised username. */
  method TryStrategies(name: string, lookup: (Strategy, string) -> Outcome)
    returns (r: Result<string, Exception>, calls: seq<(Strategy, string)>)
    ensures r == Chain(Order, name, lookup)
    ensures |calls| == Invoked(Order, name, lookup)
    ensures forall i :: 0 <= i < |calls| ==> calls[i] == (Order[i], name)
  {
    calls := [];
    assert Order[0..] == Order;
    assert FellThrough(0, name, lookup, calls);
    var decided: bool;

    // Method 1: the profile page
    decided, r, calls := Attempt(0, name, lookup, calls);
    if decided {
      return;
    }
    // Method 2: the GraphQL search
    decided, r, calls := Attempt(1, name, lookup, calls);
    if decided {
      return;
    }
    // Method 3: web_profile_info
    decided, r, calls := Attempt(2, name, lookup, calls);
    if decided {
      return;
    }
    // Method 4: the legacy top search
    decided, r, calls := Attempt(3, name, lookup, calls);
    if decided {
      return;
    }
    // Method 5: the mobile API; only InstagramError is caught
    decided, r, calls := Attempt(4, name, lookup, calls);
    if decided {
      return;
    }
    assert Order[5..] == [];
    r := Failure(NotFound(name));
  }
}
