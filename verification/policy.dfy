/** The command policy gate shared by the local and the remote terminal
    tools: a block check by raw substring containment in the lower-cased
    command, followed by an allow check on the lower-cased first token. */
module Policy {
  import opened Base
  import opened Text

  /** An allow registry: command name to description, in dict insertion order. */
  type Registry = seq<(string, string)>

  function Names(reg: Registry): (names: set<string>)
    ensures forall i :: 0 <= i < |reg| ==> reg[i].0 in names
    ensures forall n :: n in names ==> exists i :: 0 <= i < |reg| && reg[i].0 == n
  {
    set i | 0 <= i < |reg| :: reg[i].0
  }

  /** A dict literal never holds the same key twice. */
  predicate DistinctNames(reg: Registry)
  {
    forall i, j :: 0 <= i < j < |reg| ==> reg[i].0 != reg[j].0
  }

  /** `order` lists exactly the members of the blocked set: Python iterates a
      set in an order fixed by string hashes, which the model leaves open. */
  predicate Enumerates(order: seq<string>, blocked: set<string>)
  {
    && (forall t :: t in order ==> t in blocked)
    && (forall t :: t in blocked ==> t in order)
  }

  /** Some blocked token occurs in the (already lower-cased) command. */
  predicate AnyBlocked(blocked: set<string>, lowered: string)
  {
    exists t :: t in blocked && Contains(lowered, t)
  }

  /** The outcome of `validate_command`. */
  datatype Decision =
    | Allowed
    | Blocked(token: string)        // "危险命令被拦截"
    | Unknown(name: string)         // "未知命令被拦截"
    | NoCommandName                 // `command.split()[0]` raises IndexError

  /** The first token of `order` that occurs in `lowered`, as the `for` loop over the set finds it. */
  function FirstBlocked(order: seq<string>, lowered: string): (r: Option<string>)
    ensures r.Some? ==> r.value in order && Contains(lowered, r.value)
    ensures r.None? <==> forall t :: t in order ==> !Contains(lowered, t)
  {
    if |order| == 0 then
      None
    else if Contains(lowered, order[0]) then
      Some(order[0])
    else
      var r := FirstBlocked(order[1..], lowered);
      assert forall t :: t in order ==> t == order[0] || t in order[1..];
      r
  }

  /** `validate_command` as a decision: block check over the whole lower-cased
      command first, then the allow check on the lower-cased first token. */
  function Decide(allow: Registry, blocked: set<string>, order: seq<string>, command: string): (d: Decision)
    requires Enumerates(order, blocked)
    // any blocked substring anywhere rejects, whatever the first token is
    ensures d.Blocked? <==> AnyBlocked(blocked, Lower(command))
    ensures d.Blocked? ==> d.token in blocked && Contains(Lower(command), d.token)
    // otherwise the first token alone decides
    ensures !AnyBlocked(blocked, Lower(command)) ==>
      match FirstToken(command)
      case None => d == NoCommandName
      case Some(w) =>
        (Lower(w) in Names(allow) ==> d == Allowed)
        && (Lower(w) !in Names(allow) ==> d == Unknown(Lower(w)))
  {
    match FirstBlocked(order, Lower(command))
    case Some(t) => Blocked(t)
    case None =>
      match FirstToken(command)
      case None => NoCommandName
      case Some(w) =>
        var name := Lower(w);
        if name in Names(allow) then Allowed else Unknown(name)
  }

  /** Which blocked token is reported depends on the set's iteration order;
      whether the command is accepted, and every non-blocked verdict, do not. */
  lemma OrderIrrelevant(allow: Registry, blocked: set<string>, o1: seq<string>, o2: seq<string>, command: string)
    requires Enumerates(o1, blocked) && Enumerates(o2, blocked)
    ensures Decide(allow, blocked, o1, command).Blocked? == Decide(allow, blocked, o2, command).Blocked?
    ensures !Decide(allow, blocked, o1, command).Blocked? ==>
      Decide(allow, blocked, o1, command) == Decide(allow, blocked, o2, command)
  {
  }

  /** A command is accepted exactly when no blocked token occurs in it and its
      first token names a registered command. */
  lemma AcceptedIff(allow: Registry, blocked: set<string>, order: seq<string>, command: string)
    requires Enumerates(order, blocked)
    ensures Decide(allow, blocked, order, command) == Allowed <==>
      && !AnyBlocked(blocked, Lower(command))
      && FirstToken(command).Some?
      && Lower(FirstToken(command).value) in Names(allow)
  {
  }

  /** A registered name, alone on the command line, passes the gate when no
      blocked token occurs in it. */
  lemma BareNamePasses(allow: Registry, blocked: set<string>, order: seq<string>, name: string)
    requires Enumerates(order, blocked)
    requires name in Names(allow) && |name| > 0 && NoSpace(name) && Lower(name) == name
    requires !AnyBlocked(blocked, name)
    ensures Decide(allow, blocked, order, name) == Allowed
  {
    WordIsOwnToken(name);
  }

  /** A command free of blocked tokens whose first token is registered passes. */
  lemma TokenPasses(allow: Registry, blocked: set<string>, order: seq<string>, command: string, w: string)
    requires Enumerates(order, blocked)
    requires !AnyBlocked(blocked, Lower(command))
    requires FirstToken(command) == Some(w) && Lower(w) in Names(allow)
    ensures Decide(allow, blocked, order, command) == Allowed
  {
  }

  /** One occurrence of one blocked token is enough to reject. */
  lemma BlockedByOccurrence(allow: Registry, blocked: set<string>, order: seq<string>, command: string, t: string, i: int)
    requires Enumerates(order, blocked)
    requires t in blocked && OccursAt(Lower(command), t, i)
    ensures Decide(allow, blocked, order, command).Blocked?
  {
    OccursContains(Lower(command), t, i);
  }

  /** Every blocked token starts with a visible (non-whitespace) character. */
  predicate VisibleStarts(blocked: set<string>)
  {
    forall t :: t in blocked ==> |t| > 0 && !IsSpace(t[0])
  }

  /** A command of whitespace only has no first token; if no blocked token
      starts with whitespace, nothing in it is blocked either. */
  lemma {:induction false} BlankHasNoName(allow: Registry, blocked: set<string>, order: seq<string>, command: string)
    requires Enumerates(order, blocked)
    requires VisibleStarts(blocked)
    requires AllSpace(command)
    ensures Decide(allow, blocked, order, command) == NoCommandName
  {
    var lowered := Lower(command);
    assert AllSpace(lowered);
    forall t | t in blocked
      ensures !Contains(lowered, t)
    {
      ForeignCharExcludes(lowered, t, t[0]);
    }
  }

  /** `name` contains no token of `blocked`: each token has a character that `name` lacks. */
  lemma ClearOfBlocked(blocked: set<string>, name: string)
    requires forall t :: t in blocked ==> ForeignFrom(name, t, 0)
    ensures !AnyBlocked(blocked, name)
  {
    forall t | t in blocked
      ensures !Contains(name, t)
    {
      ForeignExcludes(name, t, 0);
    }
  }

  /** Every blocked token other than `t` has a character that `s` lacks. */
  predicate ForeignToOthers(blocked: set<string>, s: string, t: string)
  {
    forall u :: u in blocked && u != t ==> ForeignFrom(s, u, 0)
  }

  /** When `t` is the only blocked token in the lower-cased command, it is the
      one reported, whatever order the set is walked in. */
  lemma SoleBlockedToken(allow: Registry, blocked: set<string>, order: seq<string>, command: string, t: string)
    requires Enumerates(order, blocked)
    requires t in blocked && Contains(Lower(command), t)
    requires ForeignToOthers(blocked, Lower(command), t)
    ensures Decide(allow, blocked, order, command) == Blocked(t)
  {
    forall u | u in blocked && u != t
      ensures !Contains(Lower(command), u)
    {
      ForeignExcludes(Lower(command), u, 0);
    }
  }

  /** The text of one line of `list_allowed_commands`. */
  function Entry(name: string, desc: string): string
  {
    name + ": " + desc
  }

  /** `list_allowed_commands`: one "name: desc" line per registry entry, in insertion order. */
  function Listing(reg: Registry): (lines: seq<string>)
    ensures |lines| == |reg|
    ensures forall i :: 0 <= i < |reg| ==> StartsWith(lines[i], reg[i].0 + ": ")
  {
    var lines := seq(|reg|, i requires 0 <= i < |reg| => Entry(reg[i].0, reg[i].1));
    forall i | 0 <= i < |reg|
      ensures StartsWith(lines[i], reg[i].0 + ": ")
    {
      StartsWithIsPrefix(lines[i], reg[i].0 + ": ");
    }
    lines
  }

  /** The index of the first ':' in `s`, if any. */
  function ColonIndex(s: string): (r: Option<nat>)
    ensures r.Some? ==> r.value < |s| && s[r.value] == ':' && ':' !in s[..r.value]
    ensures r.None? ==> ':' !in s
  {
    if |s| == 0 then None
    else if s[0] == ':' then Some(0)
    else
      match ColonIndex(s[1..])
      case None => None
      case Some(k) =>
        assert s[..k + 1] == [s[0]] + s[1..][..k];
        Some(k + 1)
  }

  /** Splits a listing line back into name and description at the first ": ". */
  function ParseEntry(line: string): (r: Option<(string, string)>)
    ensures r.Some? ==> line == Entry(r.value.0, r.value.1) && ':' !in r.value.0
  {
    match ColonIndex(line)
    case None => None
    case Some(k) =>
      if k + 1 < |line| && line[k + 1] == ' ' then
        assert line == line[..k] + ": " + line[k + 2..];
        Some((line[..k], line[k + 2..]))
      else
        None
  }

  /** Reading the listing back yields the registry itself, for names without ':'. */
  lemma ListingRoundTrip(reg: Registry)
    requires forall i :: 0 <= i < |reg| ==> ':' !in reg[i].0
    ensures forall i :: 0 <= i < |reg| ==> ParseEntry(Listing(reg)[i]) == Some(reg[i])
  {
    forall i | 0 <= i < |reg|
      ensures ParseEntry(Listing(reg)[i]) == Some(reg[i])
    {
      var line := Entry(reg[i].0, reg[i].1);
      var n := |reg[i].0|;
      assert line[..n] == reg[i].0;
      assert line[n] == ':';
      ColonFirst(line, n);
      assert line[n + 2..] == reg[i].1;
    }
  }

  lemma ColonFirst(s: string, n: nat)
    requires n < |s| && s[n] == ':' && ':' !in s[..n]
    ensures ColonIndex(s) == Some(n)
  {
    if n > 0 {
      assert s[1..][..n - 1] == s[..n][1..];
      ColonFirst(s[1..], n - 1);
    }
  }
}
