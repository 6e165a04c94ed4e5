/**
 The URI parser of base/Uri.cpp: a full match of one regular expression with greedy quantifiers and
 overlapping character classes, under ECMAScript's backtracking order, followed by defaults.
 */
module Uri {
  import opened Names

  // ---------- Backtracking matching ----------

  /** The character classes of the expression. */
  datatype Class = Lower | NotColon | NotAt | HostChar | Digit | PathChar | NotHash | Dot

  predicate In(cls: Class, c: char) {
    match cls
    case Lower => 'a' <= c <= 'z'
    case NotColon => c != ':'
    case NotAt => c != '@'
    case HostChar => c != '/' && c != ':'
    case Digit => '0' <= c <= '9'
    case PathChar => c != '?' && c != '#'
    case NotHash => c != '#'
    case Dot => c != '\n' && c != '\r'
  }

  predicate All(cls: Class, s: string) {
    forall i | 0 <= i < |s| :: In(cls, s[i])
  }

  /** How many characters a greedy quantifier takes at first. */
  function RunLength(cls: Class, s: string): (n: nat)
    ensures n <= |s| && All(cls, s[..n])
    ensures n < |s| ==> !In(cls, s[n])
  {
    if s == "" || !In(cls, s[0]) then 0 else 1 + RunLength(cls, s[1..])
  }

  /** A continuation gets what the group took and what is left. */
  type Rest<!R> = (string, string) -> Option<R>

  /** Try to go on after n characters, then after fewer, down to lo. */
  function Greedy<R>(s: string, lo: nat, n: nat, k: Rest<R>): Option<R>
    requires lo <= n <= |s|
    decreases n
  {
    match k(s[..n], s[n..])
    case Some(r) => Some(r)
    case None => if n == lo then None else Greedy(s, lo, n - 1, k)
  }

  function Star<R>(cls: Class, s: string, k: Rest<R>): Option<R> {
    Greedy(s, 0, RunLength(cls, s), k)
  }

  function Plus<R>(cls: Class, s: string, k: Rest<R>): Option<R> {
    if RunLength(cls, s) == 0 then None else Greedy(s, 1, RunLength(cls, s), k)
  }

  /** An optional group is tried first and skipped when that fails. */
  function OrElse<R>(first: Option<R>, second: Option<R>): Option<R> {
    if first.Some? then first else second
  }

  predicate Starts(s: string, c: char) {
    s != "" && s[0] == c
  }

  // ---------- The expression, from its end to its beginning ----------

  /** Groups 8, 9, 11 and 13. */
  datatype Tail = Tail(port: Option<string>, path: Option<string>, query: Option<string>, fragment: Option<string>)

  /** (#(.*))?$ */
  function MatchFragment(s: string): Option<Tail> {
    OrElse(
      if Starts(s, '#') then
        Star(Dot, s[1..], AfterFragment())
      else None,
      if s == "" then Some(Tail(None, None, None, None)) else None)
  }

  function AfterFragment(): Rest<Tail> {
    (f, rest) => if rest == "" then Some(Tail(None, None, None, Some(f))) else None
  }

  /** (\?([^#]*))? and the rest */
  function MatchQuery(s: string): Option<Tail> {
    OrElse(
      if Starts(s, '?') then
        Star(NotHash, s[1..], AfterQuery())
      else None,
      MatchFragment(s))
  }

  function AfterQuery(): Rest<Tail> {
    (q, rest) => var t := MatchFragment(rest); if t.Some? then Some(t.value.(query := Some(q))) else None
  }

  /** (/[^\?#]*)? and the rest; the group includes the slash */
  function MatchPath(s: string): Option<Tail> {
    OrElse(
      if Starts(s, '/') then
        Star(PathChar, s[1..], AfterPath())
      else None,
      MatchQuery(s))
  }

  function AfterPath(): Rest<Tail> {
    (p, rest) => var t := MatchQuery(rest); if t.Some? then Some(t.value.(path := Some("/" + p))) else None
  }

  /** (:([0-9]+))? and the rest */
  function MatchTail(s: string): Option<Tail> {
    OrElse(
      if Starts(s, ':') then
        Plus(Digit, s[1..], AfterPort())
      else None,
      MatchPath(s))
  }

  function AfterPort(): Rest<Tail> {
    (p, rest) => var t := MatchPath(rest); if t.Some? then Some(t.value.(port := Some(p))) else None
  }

  /** Groups 6 and after. */
  datatype Place = Place(host: string, tail: Tail)

  /** ([^/:]+) and the rest */
  function MatchHost(s: string): Option<Place> {
    Plus(HostChar, s, AfterHost())
  }

  function AfterHost(): Rest<Place> {
    (h, rest) => var t := MatchTail(rest); if t.Some? then Some(Place(h, t.value)) else None
  }

  /** Groups 3 and 5. */
  datatype User = User(name: string, password: Option<string>)

  /** Everything after the scheme. */
  datatype Authority = Authority(user: Option<User>, place: Place)

  /** @ and the rest */
  function MatchAt(s: string, user: User): Option<Authority> {
    if Starts(s, '@') then
      var p := MatchHost(s[1..]);
      if p.Some? then Some(Authority(Some(user), p.value)) else None
    else None
  }

  /** (:([^@]+))?@ and the rest */
  function MatchPassword(s: string, name: string): Option<Authority> {
    OrElse(
      if Starts(s, ':') then
        Plus(NotAt, s[1..], AfterPassword(name))
      else None,
      MatchAt(s, User(name, None)))
  }

  function AfterPassword(name: string): Rest<Authority> {
    (p, rest) => MatchAt(rest, User(name, Some(p)))
  }

  /** (([^:]+)(:([^@]+))?@)? and the rest */
  function MatchAuthority(s: string): Option<Authority> {
    OrElse(
      Plus(NotColon, s, AfterName()),
      var p := MatchHost(s); if p.Some? then Some(Authority(None, p.value)) else None)
  }

  function AfterName(): Rest<Authority> {
    (u, rest) => MatchPassword(rest, u)
  }

  datatype Groups = Groups(scheme: string, authority: Authority)

  /** ^([a-z]+):// and the rest */
  function Match(s: string): Option<Groups> {
    Plus(Lower, s, AfterScheme())
  }

  function AfterScheme(): Rest<Groups> {
    (scheme, rest) =>
      if "://" <= rest then
        var a := MatchAuthority(rest[3..]);
        if a.Some? then Some(Groups(scheme, a.value)) else None
      else None
  }

  // ---------- What a match means ----------

  function Opt(prefix: string, x: Option<string>): string {
    if x.Some? then prefix + x.value else ""
  }

  function RenderFragment(t: Tail): string {
    Opt("#", t.fragment)
  }

  function RenderQuery(t: Tail): string {
    Opt("?", t.query) + RenderFragment(t)
  }

  function RenderPath(t: Tail): string {
    Opt("", t.path) + RenderQuery(t)
  }

  function RenderTail(t: Tail): string {
    Opt(":", t.port) + RenderPath(t)
  }

  function RenderPlace(p: Place): string {
    p.host + RenderTail(p.tail)
  }

  function RenderUser(u: Option<User>): string {
    if u.Some? then u.value.name + Opt(":", u.value.password) + "@" else ""
  }

  function Render(g: Groups): string {
    g.scheme + "://" + (RenderUser(g.authority.user) + RenderPlace(g.authority.place))
  }

  predicate TailOk(t: Tail) {
    && (t.port.Some? ==> t.port.value != "" && All(Digit, t.port.value))
    && (t.path.Some? ==> Starts(t.path.value, '/') && All(PathChar, t.path.value))
    && (t.query.Some? ==> All(NotHash, t.query.value))
    && (t.fragment.Some? ==> All(Dot, t.fragment.value))
  }

  predicate PlaceOk(p: Place) {
    p.host != "" && All(HostChar, p.host) && TailOk(p.tail)
  }

  predicate UserOk(u: User) {
    && u.name != "" && All(NotColon, u.name)
    && (u.password.Some? ==> u.password.value != "" && All(NotAt, u.password.value))
  }

  predicate AuthorityOk(a: Authority) {
    (a.user.Some? ==> UserOk(a.user.value)) && PlaceOk(a.place)
  }

  predicate GroupsOk(g: Groups) {
    g.scheme != "" && All(Lower, g.scheme) && AuthorityOk(g.authority)
  }

  // ---------- Greedy search ----------

  /** Greedy finds the continuation that works after the longest piece. */
  lemma {:induction false} GreedyFindsLongest<R>(s: string, lo: nat, hi: nat, k: Rest<R>) returns (n: nat)
    requires lo <= hi <= |s|
    ensures lo <= n <= hi
    ensures Greedy(s, lo, hi, k) == k(s[..n], s[n..])
    ensures forall m | n < m <= hi :: k(s[..m], s[m..]) == None
    ensures Greedy(s, lo, hi, k) == None ==> forall m | lo <= m <= hi :: k(s[..m], s[m..]) == None
  {
    n := hi;
    if k(s[..hi], s[hi..]) == None && hi > lo {
      n := GreedyFindsLongest(s, lo, hi - 1, k);
    }
  }

  /** A piece that belongs to the class is no longer than the run. */
  lemma {:induction false} WithinRun(cls: Class, s: string, n: nat)
    requires n <= |s| && All(cls, s[..n])
    ensures n <= RunLength(cls, s)
  {
    if n > 0 {
      assert In(cls, s[..n][0]);
      assert s[1..][..n - 1] == s[..n][1..];
      WithinRun(cls, s[1..], n - 1);
    }
  }

  lemma AllOfPrefix(cls: Class, s: string, m: nat, n: nat)
    requires m <= n <= |s| && All(cls, s[..n])
    ensures All(cls, s[..m])
  {
    assert forall i | 0 <= i < m :: s[..m][i] == s[..n][i];
  }

  /** A starred group takes the longest piece of its class after which the rest matches. */
  lemma StarFindsLongest<R>(cls: Class, s: string, k: Rest<R>) returns (n: nat)
    ensures n <= |s| && All(cls, s[..n]) && Star(cls, s, k) == k(s[..n], s[n..])
    ensures forall m | n < m <= |s| && All(cls, s[..m]) :: k(s[..m], s[m..]) == None
    ensures Star(cls, s, k) == None ==> forall m | 0 <= m <= |s| && All(cls, s[..m]) :: k(s[..m], s[m..]) == None
  {
    n := GreedyFindsLongest(s, 0, RunLength(cls, s), k);
    AllOfPrefix(cls, s, n, RunLength(cls, s));
    forall m | 0 <= m <= |s| && All(cls, s[..m])
      ensures m <= RunLength(cls, s)
    {
      WithinRun(cls, s, m);
    }
  }

  lemma PlusFindsLongest<R>(cls: Class, s: string, k: Rest<R>) returns (n: nat)
    ensures Plus(cls, s, k).Some? ==>
              && 0 < n <= |s| && All(cls, s[..n]) && Plus(cls, s, k) == k(s[..n], s[n..])
              && forall m | n < m <= |s| && All(cls, s[..m]) :: k(s[..m], s[m..]) == None
    ensures Plus(cls, s, k) == None ==> forall m | 0 < m <= |s| && All(cls, s[..m]) :: k(s[..m], s[m..]) == None
  {
    forall m | 0 <= m <= |s| && All(cls, s[..m])
      ensures m <= RunLength(cls, s)
    {
      WithinRun(cls, s, m);
    }
    n := 0;
    if RunLength(cls, s) > 0 {
      n := GreedyFindsLongest(s, 1, RunLength(cls, s), k);
      AllOfPrefix(cls, s, n, RunLength(cls, s));
    }
  }

  lemma {:induction false} RunStops(cls: Class, s: string, k: nat)
    requires k < |s| && !In(cls, s[k])
    ensures RunLength(cls, s) <= k
  {
    if k > 0 && In(cls, s[0]) {
      RunStops(cls, s[1..], k - 1);
    }
  }

  lemma RunLengthOf(cls: Class, piece: string, rest: string)
    requires All(cls, piece) && (rest == "" || !In(cls, rest[0]))
    ensures RunLength(cls, piece + rest) == |piece|
  {
    assert (piece + rest)[..|piece|] == piece;
    WithinRun(cls, piece + rest, |piece|);
    if rest != "" {
      RunStops(cls, piece + rest, |piece|);
    }
  }

  /** What a matching group took and what it left. */
  lemma StarTakes<R>(cls: Class, s: string, k: Rest<R>) returns (piece: string, rest: string)
    ensures s == piece + rest && All(cls, piece) && Star(cls, s, k) == k(piece, rest)
  {
    var n := StarFindsLongest(cls, s, k);
    piece, rest := s[..n], s[n..];
  }

  lemma PlusTakes<R>(cls: Class, s: string, k: Rest<R>) returns (piece: string, rest: string)
    requires Plus(cls, s, k).Some?
    ensures s == piece + rest && piece != "" && All(cls, piece) && Plus(cls, s, k) == k(piece, rest)
  {
    var n := PlusFindsLongest(cls, s, k);
    piece, rest := s[..n], s[n..];
  }

  /** When the whole run leads to a match, the group takes the whole run. */
  lemma RunMatches<R>(cls: Class, piece: string, rest: string, k: Rest<R>)
    requires All(cls, piece) && (rest == "" || !In(cls, rest[0])) && k(piece, rest).Some?
    ensures Star(cls, piece + rest, k) == k(piece, rest)
    ensures piece != "" ==> Plus(cls, piece + rest, k) == k(piece, rest)
  {
    RunLengthOf(cls, piece, rest);
    assert (piece + rest)[..|piece|] == piece && (piece + rest)[|piece|..] == rest;
  }

  // ---------- The tail has one decomposition ----------

  lemma FragmentMeans(s: string, t: Tail)
    ensures MatchFragment(s) == Some(t) <==>
            TailOk(t) && RenderFragment(t) == s && t.port == None && t.path == None && t.query == None
  {
    if Starts(s, '#') {
      var n := StarFindsLongest(Dot, s[1..], AfterFragment());
      if MatchFragment(s) == Some(t) {
        assert s[1..][..n] == s[1..];
        assert s == "#" + s[1..];
      }
    }
    if TailOk(t) && RenderFragment(t) == s && t.port == None && t.path == None && t.query == None && t.fragment.Some? {
      assert s[1..] == t.fragment.value + "";
      RunMatches(Dot, t.fragment.value, "", AfterFragment());
    }
  }

  /** What can follow each part. */
  lemma FirstOfRest(t: Tail)
    requires TailOk(t)
    ensures RenderFragment(t) == "" || RenderFragment(t)[0] == '#'
    ensures RenderQuery(t) == "" || RenderQuery(t)[0] in "?#"
    ensures RenderPath(t) == "" || RenderPath(t)[0] in "/?#"
  {
  }

  lemma QueryMeans(s: string, t: Tail)
    ensures MatchQuery(s) == Some(t) <==> TailOk(t) && RenderQuery(t) == s && t.port == None && t.path == None
  {
    if MatchQuery(s) == Some(t) {
      var taken, piece, rest := QuerySplits(s, t);
      if taken {
        FragmentMeans(rest, MatchFragment(rest).value);
        Assoc("?", piece, rest);
      } else {
        FragmentMeans(s, t);
        assert "" + s == s;
      }
    }
    if TailOk(t) && RenderQuery(t) == s && t.port == None && t.path == None {
      var rest := RenderFragment(t);
      FragmentMeans(rest, t.(query := None));
      if t.query.Some? {
        var piece := t.query.value;
        Assoc("?", piece, rest);
        FirstOfRest(t);
        QueryTakes(s, piece, rest, t.(query := None));
      } else {
        assert s == rest;
        QuerySkips(s);
      }
    }
  }

  /** How a match of this part came about. */
  lemma QuerySplits(s: string, t: Tail) returns (taken: bool, piece: string, rest: string)
    requires MatchQuery(s) == Some(t)
    ensures if taken then
              && s == "?" + (piece + rest) && All(NotHash, piece)
              && MatchFragment(rest).Some? && t == MatchFragment(rest).value.(query := Some(piece))
            else MatchFragment(s) == Some(t)
  {
    taken, piece, rest := false, "", "";
    if Starts(s, '?') && Star(NotHash, s[1..], AfterQuery()).Some? {
      taken := true;
      piece, rest := StarTakes(NotHash, s[1..], AfterQuery());
      assert s == "?" + s[1..];
    }
  }

  lemma QueryTakes(s: string, piece: string, rest: string, t: Tail)
    requires s == "?" + (piece + rest) && All(NotHash, piece) && (rest == "" || !In(NotHash, rest[0]))
    requires MatchFragment(rest) == Some(t)
    ensures MatchQuery(s) == Some(t.(query := Some(piece)))
  {
    assert s[1..] == piece + rest;
    RunMatches(NotHash, piece, rest, AfterQuery());
  }

  lemma QuerySkips(s: string)
    requires !Starts(s, '?')
    ensures MatchQuery(s) == MatchFragment(s)
  {
  }

  /** The path group is a slash and path characters. */
  lemma SlashAndRest(p: string)
    requires p != ""
    ensures Starts(p, '/') && All(PathChar, p) <==> p == "/" + p[1..] && All(PathChar, p[1..])
  {
    if p == "/" + p[1..] && All(PathChar, p[1..]) {
      assert forall i | 0 < i < |p| :: p[i] == p[1..][i - 1];
    }
  }

  lemma PathMeans(s: string, t: Tail)
    ensures MatchPath(s) == Some(t) <==> TailOk(t) && RenderPath(t) == s && t.port == None
  {
    if MatchPath(s) == Some(t) {
      PathSound(s, t);
    }
    if TailOk(t) && RenderPath(t) == s && t.port == None {
      PathComplete(s, t);
    }
  }

  lemma PathSound(s: string, t: Tail)
    requires MatchPath(s) == Some(t)
    ensures TailOk(t) && RenderPath(t) == s && t.port == None
  {
    var taken, piece, rest := PathSplits(s, t);
    if taken {
      QueryMeans(rest, MatchQuery(rest).value);
      AddPath(MatchQuery(rest).value, piece);
    } else {
      QueryMeans(s, t);
    }
  }

  lemma AddPath(t: Tail, piece: string)
    requires TailOk(t) && t.path == None && All(PathChar, piece)
    ensures var u := t.(path := Some("/" + piece));
            TailOk(u) && RenderPath(u) == "/" + (piece + RenderQuery(t))
  {
    SlashAndRest("/" + piece);
    Assoc("/", piece, RenderQuery(t));
  }

  lemma DropPath(t: Tail)
    requires TailOk(t) && t.path.Some?
    ensures var piece := t.path.value[1..];
            && All(PathChar, piece) && t.path.value == "/" + piece
            && RenderPath(t) == "/" + (piece + RenderQuery(t))
  {
    SlashAndRest(t.path.value);
    Assoc("/", t.path.value[1..], RenderQuery(t));
  }

  lemma PathComplete(s: string, t: Tail)
    requires TailOk(t) && RenderPath(t) == s && t.port == None
    ensures MatchPath(s) == Some(t)
  {
    var rest := RenderQuery(t);
    QueryMeans(rest, t.(path := None));
    if t.path.Some? {
      DropPath(t);
      FirstOfRest(t);
      PathTakes(s, t.path.value[1..], rest, t.(path := None));
    } else {
      assert s == rest;
      PathSkips(s);
    }
  }

  /** How a match of this part came about. */
  lemma PathSplits(s: string, t: Tail) returns (taken: bool, piece: string, rest: string)
    requires MatchPath(s) == Some(t)
    ensures if taken then
              && s == "/" + (piece + rest) && All(PathChar, piece)
              && MatchQuery(rest).Some? && t == MatchQuery(rest).value.(path := Some("/" + piece))
            else MatchQuery(s) == Some(t)
  {
    taken, piece, rest := false, "", "";
    if Starts(s, '/') && Star(PathChar, s[1..], AfterPath()).Some? {
      taken := true;
      piece, rest := StarTakes(PathChar, s[1..], AfterPath());
      assert s == "/" + s[1..];
    }
  }

  lemma PathTakes(s: string, piece: string, rest: string, t: Tail)
    requires s == "/" + (piece + rest) && All(PathChar, piece) && (rest == "" || !In(PathChar, rest[0]))
    requires MatchQuery(rest) == Some(t)
    ensures MatchPath(s) == Some(t.(path := Some("/" + piece)))
  {
    assert s[1..] == piece + rest;
    RunMatches(PathChar, piece, rest, AfterPath());
  }

  lemma PathSkips(s: string)
    requires !Starts(s, '/')
    ensures MatchPath(s) == MatchQuery(s)
  {
  }

  /** The part after the host is matched exactly when it decomposes, and it decomposes in one way. */
  lemma TailMeans(s: string, t: Tail)
    ensures MatchTail(s) == Some(t) <==> TailOk(t) && RenderTail(t) == s
  {
    if MatchTail(s) == Some(t) {
      var taken, piece, rest := TailSplits(s, t);
      if taken {
        PathMeans(rest, MatchPath(rest).value);
        Assoc(":", piece, rest);
      } else {
        PathMeans(s, t);
        assert "" + s == s;
      }
    }
    if TailOk(t) && RenderTail(t) == s {
      var rest := RenderPath(t);
      PathMeans(rest, t.(port := None));
      if t.port.Some? {
        var piece := t.port.value;
        Assoc(":", piece, rest);
        FirstOfRest(t);
        TailTakes(s, piece, rest, t.(port := None));
      } else {
        assert s == rest;
        TailSkips(s);
      }
    }
  }

  /** How a match of this part came about. */
  lemma TailSplits(s: string, t: Tail) returns (taken: bool, piece: string, rest: string)
    requires MatchTail(s) == Some(t)
    ensures if taken then
              && s == ":" + (piece + rest) && piece != "" && All(Digit, piece)
              && MatchPath(rest).Some? && t == MatchPath(rest).value.(port := Some(piece))
            else MatchPath(s) == Some(t)
  {
    taken, piece, rest := false, "", "";
    if Starts(s, ':') && Plus(Digit, s[1..], AfterPort()).Some? {
      taken := true;
      piece, rest := PlusTakes(Digit, s[1..], AfterPort());
      assert s == ":" + s[1..];
    }
  }

  lemma TailTakes(s: string, piece: string, rest: string, t: Tail)
    requires s == ":" + (piece + rest) && piece != "" && All(Digit, piece) && (rest == "" || !In(Digit, rest[0]))
    requires MatchPath(rest) == Some(t)
    ensures MatchTail(s) == Some(t.(port := Some(piece)))
  {
    assert s[1..] == piece + rest;
    RunMatches(Digit, piece, rest, AfterPort());
  }

  lemma TailSkips(s: string)
    requires !Starts(s, ':')
    ensures MatchTail(s) == MatchPath(s)
  {
  }

  // ---------- Longest host, longest user name ----------

  ghost predicate PlaceOf(p: Place, s: string) {
    PlaceOk(p) && RenderPlace(p) == s
  }

  /** A decomposition of s into host and tail fixes the host's length; any other is a shorter host. */
  ghost predicate IsLongestHost(s: string, r: Option<Place>) {
    && (r == None ==> forall q :: !PlaceOf(q, s))
    && (r.Some? ==> PlaceOf(r.value, s))
    && (r.Some? ==> forall q | PlaceOf(q, s) :: q == r.value || |q.host| < |r.value.host|)
  }

  lemma HostSound(s: string) returns (n: nat)
    ensures MatchHost(s).Some? ==>
              PlaceOf(MatchHost(s).value, s) && n == |MatchHost(s).value.host| <= |s|
              && forall m | n < m <= |s| && All(HostChar, s[..m]) :: AfterHost()(s[..m], s[m..]) == None
    ensures MatchHost(s) == None ==> forall m | 0 < m <= |s| && All(HostChar, s[..m]) :: AfterHost()(s[..m], s[m..]) == None
  {
    n := PlusFindsLongest(HostChar, s, AfterHost());
    if MatchHost(s).Some? {
      HostTaken(s, n);
    }
  }

  lemma HostTaken(s: string, n: nat)
    requires 0 < n <= |s| && All(HostChar, s[..n]) && AfterHost()(s[..n], s[n..]).Some?
    ensures var p := AfterHost()(s[..n], s[n..]).value; PlaceOf(p, s) && |p.host| == n
  {
    TailMeans(s[n..], MatchTail(s[n..]).value);
    assert s == s[..n] + s[n..];
  }

  lemma PlaceMatches(q: Place, s: string)
    requires PlaceOf(q, s)
    ensures var m := |q.host|;
            0 < m <= |s| && s[..m] == q.host && MatchTail(s[m..]) == Some(q.tail) && AfterHost()(s[..m], s[m..]) == Some(q)
  {
    assert s[|q.host|..] == RenderTail(q.tail);
    TailMeans(s[|q.host|..], q.tail);
  }

  lemma HostIsLongest(s: string)
    ensures IsLongestHost(s, MatchHost(s))
  {
    var n := HostSound(s);
    forall q | PlaceOf(q, s)
      ensures MatchHost(s).Some? && (q == MatchHost(s).value || |q.host| < |MatchHost(s).value.host|)
    {
      PlaceMatches(q, s);
      if MatchHost(s).Some? && |q.host| == n {
        PlaceMatches(MatchHost(s).value, s);
      }
    }
  }

  /** What follows the user name, the name itself being fixed. */
  function RenderAfterName(a: Authority): string
    requires a.user.Some?
  {
    Opt(":", a.user.value.password) + ("@" + RenderPlace(a.place))
  }

  ghost predicate AfterNameOf(a: Authority, name: string, s: string) {
    && a.user.Some? && a.user.value.name == name && PlaceOk(a.place)
    && (a.user.value.password.Some? ==> a.user.value.password.value != "" && All(NotAt, a.user.value.password.value))
    && RenderAfterName(a) == s
  }

  ghost predicate IsLongestAfterName(s: string, name: string, r: Option<Authority>) {
    && (r == None ==> forall b :: !AfterNameOf(b, name, s))
    && (r.Some? ==> AfterNameOf(r.value, name, s))
    && (r.Some? ==> forall b | AfterNameOf(b, name, s) :: b == r.value || |b.place.host| < |r.value.place.host|)
  }

  lemma AtMeans(s: string, user: User, a: Authority)
    requires a.user == Some(user) && PlaceOk(a.place) && s == "@" + RenderPlace(a.place)
    ensures MatchAt(s, user).Some? && MatchAt(s, user).value.user == Some(user)
    ensures a == MatchAt(s, user).value || |a.place.host| < |MatchAt(s, user).value.place.host|
  {
    assert s[1..] == RenderPlace(a.place);
    HostIsLongest(s[1..]);
    assert PlaceOf(a.place, s[1..]);
  }

  lemma AtSound(s: string, user: User)
    requires MatchAt(s, user).Some?
    ensures var a := MatchAt(s, user).value;
            a.user == Some(user) && PlaceOk(a.place) && s == "@" + RenderPlace(a.place)
  {
    HostIsLongest(s[1..]);
    assert s == "@" + s[1..];
  }

  lemma PasswordSplits(s: string, name: string) returns (taken: bool, piece: string, rest: string)
    requires MatchPassword(s, name).Some?
    ensures if taken then
              && s == ":" + (piece + rest) && piece != "" && All(NotAt, piece)
              && MatchPassword(s, name) == MatchAt(rest, User(name, Some(piece)))
            else MatchPassword(s, name) == MatchAt(s, User(name, None))
  {
    taken, piece, rest := false, "", "";
    if Starts(s, ':') && Plus(NotAt, s[1..], AfterPassword(name)).Some? {
      taken := true;
      piece, rest := PlusTakes(NotAt, s[1..], AfterPassword(name));
      assert s == ":" + s[1..];
    }
  }

  lemma PasswordSound(s: string, name: string)
    requires MatchPassword(s, name).Some?
    ensures AfterNameOf(MatchPassword(s, name).value, name, s)
  {
    var taken, piece, rest := PasswordSplits(s, name);
    if taken {
      AtSound(rest, User(name, Some(piece)));
      Assoc(":", piece, rest);
    } else {
      AtSound(s, User(name, None));
      assert "" + s == s;
    }
  }

  lemma PasswordComplete(s: string, name: string, b: Authority)
    requires AfterNameOf(b, name, s)
    ensures MatchPassword(s, name).Some?
    ensures b == MatchPassword(s, name).value || |b.place.host| < |MatchPassword(s, name).value.place.host|
  {
    var user, rest := b.user.value, "@" + RenderPlace(b.place);
    AtMeans(rest, user, b);
    if user.password.Some? {
      var piece := user.password.value;
      Assoc(":", piece, rest);
      assert s[1..] == piece + rest;
      RunMatches(NotAt, piece, rest, AfterPassword(name));
    } else {
      assert s == rest;
    }
  }

  lemma PasswordIsLongest(s: string, name: string)
    ensures IsLongestAfterName(s, name, MatchPassword(s, name))
  {
    if MatchPassword(s, name).Some? {
      PasswordSound(s, name);
    }
    forall b | AfterNameOf(b, name, s)
      ensures MatchPassword(s, name).Some?
      ensures b == MatchPassword(s, name).value || |b.place.host| < |MatchPassword(s, name).value.place.host|
    {
      PasswordComplete(s, name, b);
    }
  }

  function RenderAuthority(a: Authority): string {
    RenderUser(a.user) + RenderPlace(a.place)
  }

  ghost predicate AuthorityOf(a: Authority, s: string) {
    AuthorityOk(a) && RenderAuthority(a) == s
  }

  /** The length of the user name, zero when there is none. */
  function NameLength(a: Authority): nat {
    if a.user.Some? then |a.user.value.name| else 0
  }

  /** b lost: its user name is shorter, or as long with a shorter host. */
  predicate Loses(b: Authority, a: Authority) {
    NameLength(b) < NameLength(a) || (NameLength(b) == NameLength(a) && |b.place.host| < |a.place.host|)
  }

  lemma UserText(a: Authority)
    requires a.user.Some?
    ensures RenderAuthority(a) == a.user.value.name + RenderAfterName(a)
  {
    var name, pw := a.user.value.name, Opt(":", a.user.value.password);
    assert (name + pw + "@") + RenderPlace(a.place) == name + (pw + ("@" + RenderPlace(a.place)));
  }

  /** A decomposition with a user makes the user branch match, with a name at least as long. */
  lemma UserComplete(s: string, b: Authority)
    requires AuthorityOf(b, s) && b.user.Some?
    ensures var name := b.user.value.name;
            0 < |name| <= |s| && s[..|name|] == name && All(NotColon, name) && AfterNameOf(b, name, s[|name|..])
            && AfterName()(s[..|name|], s[|name|..]).Some?
  {
    var name := b.user.value.name;
    UserText(b);
    assert s[..|name|] == name && s[|name|..] == RenderAfterName(b);
    PasswordComplete(s[|name|..], name, b);
  }

  ghost predicate IsGreatestAuthority(s: string, r: Option<Authority>) {
    && (r == None ==> forall b :: !AuthorityOf(b, s))
    && (r.Some? ==> AuthorityOf(r.value, s))
    && (r.Some? ==> forall b | AuthorityOf(b, s) :: b == r.value || Loses(b, r.value))
  }

  lemma AuthorityIsGreatest(s: string)
    ensures IsGreatestAuthority(s, MatchAuthority(s))
  {
    var n := PlusFindsLongest(NotColon, s, AfterName());
    if Plus(NotColon, s, AfterName()).Some? {
      WithUser(s, n);
    } else {
      WithoutUser(s);
    }
  }

  lemma WithUser(s: string, n: nat)
    requires 0 < n <= |s| && All(NotColon, s[..n])
    requires MatchAuthority(s) == MatchPassword(s[n..], s[..n]) && MatchAuthority(s).Some?
    requires forall m | n < m <= |s| && All(NotColon, s[..m]) :: AfterName()(s[..m], s[m..]) == None
    ensures IsGreatestAuthority(s, MatchAuthority(s))
  {
    var a := MatchAuthority(s).value;
    PasswordIsLongest(s[n..], s[..n]);
    assert AfterNameOf(a, s[..n], s[n..]);
    UserText(a);
    assert s == s[..n] + s[n..];
    forall b | AuthorityOf(b, s)
      ensures b == a || Loses(b, a)
    {
      if b.user.Some? {
        UserComplete(s, b);
      }
    }
  }

  lemma WithoutUser(s: string)
    requires Plus(NotColon, s, AfterName()) == None
    requires forall m | 0 < m <= |s| && All(NotColon, s[..m]) :: AfterName()(s[..m], s[m..]) == None
    ensures IsGreatestAuthority(s, MatchAuthority(s))
  {
    HostIsLongest(s);
    if MatchHost(s).Some? {
      assert RenderAuthority(MatchAuthority(s).value) == "" + RenderPlace(MatchHost(s).value);
    }
    forall b | AuthorityOf(b, s)
      ensures MatchAuthority(s).Some? && (b == MatchAuthority(s).value || Loses(b, MatchAuthority(s).value))
    {
      if b.user.Some? {
        UserComplete(s, b);
      }
      assert PlaceOf(b.place, s);
    }
  }

  // ---------- Main results ----------

  ghost predicate Decomposes(g: Groups, s: string) {
    GroupsOk(g) && Render(g) == s
  }

  /**
   The expression accepts exactly the strings that decompose into groups of its classes and delimiters, and
   of all decompositions it chooses the one with the longest user name and, among those, the longest host;
   no other decomposition has the same lengths.
   */
  lemma MatchIsGreatestDecomposition(s: string)
    ensures Match(s) == None ==> forall h :: !Decomposes(h, s)
    ensures Match(s).Some? ==> Decomposes(Match(s).value, s)
    ensures Match(s).Some? ==>
              forall h | Decomposes(h, s) :: h == Match(s).value || Loses(h.authority, Match(s).value.authority)
  {
    var n := PlusFindsLongest(Lower, s, AfterScheme());
    if Match(s).Some? {
      SchemeSound(s, n);
    }
    forall h | Decomposes(h, s)
      ensures Match(s).Some? && (h == Match(s).value || Loses(h.authority, Match(s).value.authority))
    {
      SchemeComplete(s, h);
    }
  }

  lemma SchemeSound(s: string, n: nat)
    requires 0 < n <= |s| && All(Lower, s[..n]) && Match(s) == AfterScheme()(s[..n], s[n..]) && Match(s).Some?
    ensures Decomposes(Match(s).value, s)
  {
    var rest := s[n..];
    AuthorityIsGreatest(rest[3..]);
    assert AuthorityOf(Match(s).value.authority, rest[3..]);
    ThreeParts(s, n);
  }

  lemma ThreeParts(s: string, n: nat)
    requires n <= |s| && "://" <= s[n..]
    ensures s == s[..n] + "://" + s[n..][3..]
  {
    assert s == s[..n] + s[n..] && s[n..] == "://" + s[n..][3..];
    Assoc(s[..n], "://", s[n..][3..]);
  }

  /** The scheme is what stands before the first colon, so it is always matched whole. */
  lemma SchemeTaken(h: Groups)
    requires GroupsOk(h)
    ensures var a := MatchAuthority(RenderAuthority(h.authority));
            a.Some? && Match(Render(h)) == Some(Groups(h.scheme, a.value))
  {
    var text := RenderAuthority(h.authority);
    AuthorityIsGreatest(text);
    assert AuthorityOf(h.authority, text);
    Assoc(h.scheme, "://", text);
    assert ("://" + text)[3..] == text;
    RunMatches(Lower, h.scheme, "://" + text, AfterScheme());
  }

  lemma SchemeComplete(s: string, h: Groups)
    requires Decomposes(h, s)
    ensures Match(s).Some? && (h == Match(s).value || Loses(h.authority, Match(s).value.authority))
  {
    SchemeTaken(h);
    AuthorityIsGreatest(RenderAuthority(h.authority));
    assert AuthorityOf(h.authority, RenderAuthority(h.authority));
  }

  /** Rendering and matching again gives the same groups exactly when no decomposition beats them. */
  lemma RoundTripIffUnbeaten(g: Groups)
    requires GroupsOk(g)
    ensures Match(Render(g)) == Some(g) <==> forall h | Decomposes(h, Render(g)) :: h == g || !Loses(g.authority, h.authority)
  {
    MatchIsGreatestDecomposition(Render(g));
    assert Decomposes(g, Render(g));
  }

  // ---------- When rendering and parsing agree ----------

  /** The '@' that ends the user part is the only one outside the password. */
  predicate NoStrayAt(g: Groups) {
    && (g.authority.user.Some? ==> All(NotAt, g.authority.user.value.name))
    && All(NotAt, RenderPlace(g.authority.place))
  }

  /** After a first '#' there is no line break. */
  predicate FragmentInLine(s: string) {
    forall i, j | 0 <= i < j < |s| :: s[i] == '#' ==> In(Dot, s[j])
  }

  /** How the text after a host may begin: not at all, with a delimiter, or with a port and then these. */
  predicate TailText(s: string) {
    || s == "" || s[0] in "/?#"
    || (s[0] == ':' &&
        var n := RunLength(Digit, s[1..]);
        n > 0 && (n == |s| - 1 || s[1 + n] in "/?#"))
  }

  /** A longer host would take a nonempty piece of the text after it, free of '/' and ':', and leave a possible tail. */
  predicate Swallows(tail: string) {
    exists j | 0 < j <= |tail| :: All(HostChar, tail[..j]) && TailText(tail[j..])
  }

  lemma AcceptsFragment(s: string)
    ensures MatchFragment(s).Some? <==> s == "" || (s[0] == '#' && FragmentInLine(s))
  {
    if MatchFragment(s).Some? {
      FragmentMeans(s, MatchFragment(s).value);
    }
    if Starts(s, '#') && FragmentInLine(s) {
      FragmentMeans(s, Tail(None, None, None, Some(s[1..])));
      assert s == "#" + s[1..];
    }
  }

  lemma InLineSuffix(s: string, n: nat)
    requires n <= |s| && FragmentInLine(s)
    ensures FragmentInLine(s[n..])
  {
  }

  /** The run after the first character, and what follows it. */
  lemma TakeRun(cls: Class, s: string) returns (piece: string, rest: string)
    requires s != "" && FragmentInLine(s)
    ensures s == [s[0]] + (piece + rest) && FragmentInLine(rest)
    ensures All(cls, piece) && (rest == "" || !In(cls, rest[0]))
  {
    var n := RunLength(cls, s[1..]);
    piece, rest := s[1..][..n], s[1..][n..];
    InLineSuffix(s, 1 + n);
    assert rest == s[1 + n..];
  }

  lemma AcceptsQuery(s: string)
    requires FragmentInLine(s)
    ensures MatchQuery(s).Some? <==> s == "" || s[0] in "?#"
  {
    AcceptsFragment(s);
    if MatchQuery(s).Some? {
      QueryMeans(s, MatchQuery(s).value);
      FirstOfRest(MatchQuery(s).value);
    }
    if Starts(s, '?') {
      var piece, rest := TakeRun(NotHash, s);
      AcceptsFragment(rest);
      QueryTakes(s, piece, rest, MatchFragment(rest).value);
    }
  }

  lemma AcceptsPath(s: string)
    requires FragmentInLine(s)
    ensures MatchPath(s).Some? <==> s == "" || s[0] in "/?#"
  {
    AcceptsQuery(s);
    if MatchPath(s).Some? {
      PathMeans(s, MatchPath(s).value);
      FirstOfRest(MatchPath(s).value);
    }
    if Starts(s, '/') {
      var piece, rest := TakeRun(PathChar, s);
      AcceptsQuery(rest);
      PathTakes(s, piece, rest, MatchQuery(rest).value);
    }
  }

  lemma AcceptsTail(s: string)
    requires FragmentInLine(s)
    ensures MatchTail(s).Some? <==> TailText(s)
  {
    AcceptsPath(s);
    if Starts(s, ':') {
      var n := RunLength(Digit, s[1..]);
      var piece, rest := s[1..][..n], s[1..][n..];
      InLineSuffix(s, 1 + n);
      assert rest == s[1 + n..] && s == ":" + (piece + rest);
      AcceptsPath(rest);
      if MatchTail(s).Some? {
        var taken, p, r := TailSplits(s, MatchTail(s).value);
        if taken {
          AcceptedPort(s, p, r);
        }
      }
      if n > 0 && MatchPath(rest).Some? {
        TailTakes(s, piece, rest, MatchPath(rest).value);
      }
    }
  }

  /** A tail is text that begins like one and has no line break after a '#'. */
  lemma AcceptsTailIff(s: string)
    ensures MatchTail(s).Some? <==> TailText(s) && FragmentInLine(s)
  {
    if MatchTail(s).Some? {
      TailMeans(s, MatchTail(s).value);
      RenderedInLine(MatchTail(s).value);
    }
    if FragmentInLine(s) {
      AcceptsTail(s);
    }
  }

  /** Text that a host and a tail make up: a nonempty piece free of '/' and ':', then a tail. */
  predicate HostText(s: string) {
    exists j | 0 < j <= |s| :: All(HostChar, s[..j]) && TailText(s[j..]) && FragmentInLine(s[j..])
  }

  lemma AcceptsHostIff(s: string)
    ensures MatchHost(s).Some? <==> HostText(s)
  {
    HostIsLongest(s);
    if MatchHost(s).Some? {
      var p := MatchHost(s).value;
      PlaceMatches(p, s);
      AcceptsTailIff(s[|p.host|..]);
    }
    if HostText(s) {
      var j :| 0 < j <= |s| && All(HostChar, s[..j]) && TailText(s[j..]) && FragmentInLine(s[j..]);
      AcceptsTailIff(s[j..]);
      HostTaken(s, j);
    }
  }

  lemma AcceptedPort(s: string, p: string, r: string)
    requires s == ":" + (p + r) && p != "" && All(Digit, p) && MatchPath(r).Some?
    ensures TailText(s)
  {
    PathMeans(r, MatchPath(r).value);
    FirstOfRest(MatchPath(r).value);
    assert s[1..] == p + r;
    RunLengthOf(Digit, p, r);
  }

  lemma RenderedInLine(t: Tail)
    requires TailOk(t)
    ensures FragmentInLine(RenderTail(t))
  {
    var before := Opt(":", t.port) + Opt("", t.path) + Opt("?", t.query);
    NoHashBefore(t);
    assert RenderTail(t) == before + RenderFragment(t) by {
      Assoc(Opt("", t.path), Opt("?", t.query), RenderFragment(t));
      Assoc(Opt(":", t.port), Opt("", t.path) + Opt("?", t.query), RenderFragment(t));
      Assoc(Opt(":", t.port), Opt("", t.path), Opt("?", t.query));
    }
    InLineConcat(before, t);
  }

  lemma NoHashBefore(t: Tail)
    requires TailOk(t)
    ensures All(NotHash, Opt(":", t.port) + Opt("", t.path) + Opt("?", t.query))
  {
    assert All(NotHash, Opt(":", t.port)) && All(NotHash, Opt("", t.path)) && All(NotHash, Opt("?", t.query));
  }

  lemma InLineConcat(before: string, t: Tail)
    requires All(NotHash, before) && TailOk(t)
    ensures FragmentInLine(before + RenderFragment(t))
  {
    var s := before + RenderFragment(t);
    forall i, j | 0 <= i < j < |s| && s[i] == '#'
      ensures In(Dot, s[j])
    {
      assert |before| <= i;
      assert s[j] == t.fragment.value[j - |before| - 1];
    }
  }

  lemma SwallowingHost(p: Place) returns (q: Place)
    requires PlaceOk(p) && Swallows(RenderTail(p.tail))
    ensures PlaceOf(q, RenderPlace(p)) && |q.host| > |p.host|
  {
    var tail := RenderTail(p.tail);
    RenderedInLine(p.tail);
    var j :| 0 < j <= |tail| && All(HostChar, tail[..j]) && TailText(tail[j..]);
    InLineSuffix(tail, j);
    AcceptsTail(tail[j..]);
    assert tail == tail[..j] + tail[j..];
    q := LongerHost(p, tail[..j], tail[j..]);
  }

  lemma AllConcat(cls: Class, a: string, b: string)
    requires All(cls, a) && All(cls, b)
    ensures All(cls, a + b)
  {
  }

  /** A swallowed piece makes another decomposition. */
  lemma LongerHost(p: Place, piece: string, rest: string) returns (q: Place)
    requires PlaceOk(p) && RenderTail(p.tail) == piece + rest && piece != "" && All(HostChar, piece)
    requires MatchTail(rest).Some?
    ensures PlaceOf(q, RenderPlace(p)) && |q.host| > |p.host|
  {
    q := Place(p.host + piece, MatchTail(rest).value);
    TailMeans(rest, MatchTail(rest).value);
    AllConcat(HostChar, p.host, piece);
    Assoc(p.host, piece, rest);
  }

  /** And another decomposition with a longer host swallows a piece. */
  lemma SwallowedPiece(p: Place, r: Place)
    requires PlaceOk(p) && PlaceOf(r, RenderPlace(p)) && |p.host| < |r.host|
    ensures Swallows(RenderTail(p.tail))
  {
    var s, tail, j := RenderPlace(p), RenderTail(p.tail), |r.host| - |p.host|;
    assert r.host == s[..|r.host|] && RenderTail(r.tail) == s[|r.host|..];
    assert tail == s[|p.host|..];
    assert tail[..j] == r.host[|p.host|..] && tail[j..] == RenderTail(r.tail);
    assert forall i | 0 <= i < j :: tail[..j][i] == r.host[|p.host| + i];
    RenderedInLine(r.tail);
    TailMeans(tail[j..], r.tail);
    AcceptsTail(tail[j..]);
  }

  /** Where the '@' and ':' of the user part stand. */
  lemma UserDelimiters(u: User)
    requires UserOk(u) && All(NotAt, u.name)
    ensures var text := RenderUser(Some(u));
            && |text| > |u.name| && text[..|u.name|] == u.name
            && text[|text| - 1] == '@' && (forall i | 0 <= i < |text| - 1 :: text[i] != '@')
            && text[|u.name|] == (if u.password.Some? then ':' else '@')
  {
  }

  /** If the only '@' after the name belongs to the user part, no decomposition has a longer name. */
  lemma SameUser(a: Authority, b: Authority)
    requires AuthorityOk(a) && AuthorityOk(b) && RenderAuthority(a) == RenderAuthority(b)
    requires a.user.Some? ==> All(NotAt, a.user.value.name)
    requires All(NotAt, RenderPlace(a.place))
    ensures b.user.Some? ==> a.user.Some? && NameLength(b) <= NameLength(a)
  {
    var s := RenderAuthority(a);
    if b.user.Some? {
      var atB := |RenderUser(b.user)| - 1;
      assert s[atB] == '@';
      assert a.user.Some?;
      UserDelimiters(a.user.value);
      var atA := |RenderUser(a.user)| - 1;
      assert s[..atA + 1] == RenderUser(a.user) && s[atA + 1..] == RenderPlace(a.place);
      assert atA >= atB;
      assert RenderPlace(b.place) == s[atB + 1..];
    }
  }

  // A user name may contain '@' and anything else but ':'. Any '@' further on may therefore end a longer one.

  /** Text before an '@' that a user name, or a user name, ':' and a password, make up. */
  predicate UserPart(s: string) {
    var n := RunLength(NotColon, s);
    n > 0 && (n < |s| ==> n + 1 < |s| && All(NotAt, s[n + 1..]))
  }

  /** The '@' at i ends a user part whose name is longer than n, and a host follows it. */
  predicate StolenAt(text: string, n: nat, i: int) {
    && 0 <= i < |text| && text[i] == '@'
    && UserPart(text[..i]) && RunLength(NotColon, text[..i]) > n && HostText(text[i + 1..])
  }

  predicate Stolen(text: string, n: nat) {
    exists i | 0 <= i < |text| :: StolenAt(text, n, i)
  }

  lemma UserOfText(s: string) returns (u: User)
    requires UserPart(s)
    ensures UserOk(u) && |u.name| == RunLength(NotColon, s) && RenderUser(Some(u)) == s + "@"
  {
    var n := RunLength(NotColon, s);
    if n == |s| {
      u := User(s[..n], None);
      assert s[..n] + "" == s;
    } else {
      u := User(s[..n], Some(s[n + 1..]));
      assert s[n] == ':';
      assert s[..n] + (":" + s[n + 1..]) == s;
    }
  }

  lemma TextOfUser(u: User)
    requires UserOk(u)
    ensures var s := u.name + Opt(":", u.password);
            RenderUser(Some(u)) == s + "@" && UserPart(s) && RunLength(NotColon, s) == |u.name|
  {
    var s := u.name + Opt(":", u.password);
    RunLengthOf(NotColon, u.name, Opt(":", u.password));
    if u.password.Some? {
      assert s[|u.name| + 1..] == u.password.value;
    }
  }

  lemma PlaceOfText(s: string) returns (p: Place)
    requires HostText(s)
    ensures PlaceOf(p, s)
  {
    AcceptsHostIff(s);
    HostIsLongest(s);
    p := MatchHost(s).value;
  }

  lemma TextOfPlace(p: Place)
    requires PlaceOk(p)
    ensures HostText(RenderPlace(p))
  {
    HostIsLongest(RenderPlace(p));
    assert PlaceOf(p, RenderPlace(p));
    AcceptsHostIff(RenderPlace(p));
  }

  /** A stolen '@' makes a decomposition with a longer user name ... */
  lemma StolenAuthority(text: string, n: nat) returns (b: Authority)
    requires Stolen(text, n)
    ensures AuthorityOf(b, text) && NameLength(b) > n
  {
    var i :| 0 <= i < |text| && StolenAt(text, n, i);
    var u := UserOfText(text[..i]);
    var p := PlaceOfText(text[i + 1..]);
    b := UserAndPlace(u, p, text[..i] + "@", text[i + 1..]);
    CutAt(text, i);
  }

  lemma CutAt(text: string, i: nat)
    requires i < |text| && text[i] == '@'
    ensures (text[..i] + "@") + text[i + 1..] == text
  {
  }

  lemma UserAndPlace(u: User, p: Place, head: string, rest: string) returns (b: Authority)
    requires UserOk(u) && RenderUser(Some(u)) == head && PlaceOf(p, rest)
    ensures AuthorityOf(b, head + rest) && NameLength(b) == |u.name|
  {
    b := Authority(Some(u), p);
  }

  /** ... and every such decomposition comes from one. */
  lemma LongerNameIsStolen(text: string, b: Authority, n: nat)
    requires AuthorityOf(b, text) && NameLength(b) > n
    ensures Stolen(text, n)
  {
    var u, place := b.user.value, RenderPlace(b.place);
    var s := u.name + Opt(":", u.password);
    TextOfUser(u);
    assert text == (s + "@") + place;
    assert text[..|s|] == s && text[|s|] == '@' && text[|s| + 1..] == place;
    TextOfPlace(b.place);
    assert StolenAt(text, n, |s|);
  }

  lemma SplitAtAt(p: string, x: string, q: string, y: string)
    requires All(NotAt, p) && All(NotAt, q) && p + ("@" + x) == q + ("@" + y)
    ensures p == q && x == y
  {
    var s := p + ("@" + x);
    assert s[|p|] == '@' && s[|q|] == '@';
    assert |p| < |q| ==> In(NotAt, q[|p|]);
    assert |q| < |p| ==> In(NotAt, p[|q|]);
    assert p == s[..|p|] && q == s[..|q|] && x == s[|p| + 1..] && y == s[|q| + 1..];
  }

  lemma AfterNameParts(a: Authority)
    requires AuthorityOk(a) && a.user.Some?
    ensures var text, password := RenderAfterName(a), a.user.value.password;
            && text != "" && text[0] == (if password.Some? then ':' else '@')
            && text[1..] == if password.Some? then password.value + ("@" + RenderPlace(a.place)) else RenderPlace(a.place)
  {
    var at := "@" + RenderPlace(a.place);
    if a.user.value.password.Some? {
      Assoc(":", a.user.value.password.value, at);
      assert RenderAfterName(a) == ":" + (a.user.value.password.value + at);
    } else {
      assert RenderAfterName(a) == at;
    }
  }

  /** What follows the name fixes the password and the place. */
  lemma SameAfterName(a: Authority, b: Authority)
    requires AuthorityOk(a) && AuthorityOk(b) && a.user.Some? && b.user.Some? && RenderAfterName(a) == RenderAfterName(b)
    ensures a.user.value.password == b.user.value.password && RenderPlace(a.place) == RenderPlace(b.place)
  {
    AfterNameParts(a);
    AfterNameParts(b);
    if a.user.value.password.Some? {
      SplitAtAt(a.user.value.password.value, RenderPlace(a.place), b.user.value.password.value, RenderPlace(b.place));
    }
  }

  /** Decompositions with equally long user names have the same user part. */
  lemma SameName(a: Authority, b: Authority)
    requires AuthorityOk(a) && AuthorityOk(b) && RenderAuthority(a) == RenderAuthority(b) && NameLength(a) == NameLength(b)
    ensures a.user == b.user && RenderPlace(a.place) == RenderPlace(b.place)
  {
    if a.user.Some? {
      var n, text := NameLength(a), RenderAuthority(a);
      UserText(a);
      UserText(b);
      assert text[..n] == a.user.value.name && text[n..] == RenderAfterName(a);
      assert text[..n] == b.user.value.name && text[n..] == RenderAfterName(b);
      SameAfterName(a, b);
    } else {
      assert "" + RenderPlace(a.place) == RenderPlace(a.place) && "" + RenderPlace(b.place) == RenderPlace(b.place);
    }
  }

  /** The groups after the scheme survive exactly when no '@' is stolen and nothing is swallowed. */
  lemma AuthoritySurvives(a: Authority)
    requires AuthorityOk(a)
    ensures MatchAuthority(RenderAuthority(a)) == Some(a) <==>
            !Stolen(RenderAuthority(a), NameLength(a)) && !Swallows(RenderTail(a.place.tail))
  {
    var text := RenderAuthority(a);
    AuthorityIsGreatest(text);
    assert AuthorityOf(a, text);
    var r := MatchAuthority(text).value;
    if Stolen(text, NameLength(a)) {
      var b := StolenAuthority(text, NameLength(a));
      assert !Loses(b, a);
    } else if Swallows(RenderTail(a.place.tail)) {
      var q := SwallowingHost(a.place);
      assert AuthorityOf(Authority(a.user, q), text) && !Loses(Authority(a.user, q), a);
    } else if r != a {
      if NameLength(r) > NameLength(a) {
        LongerNameIsStolen(text, r, NameLength(a));
      } else {
        SameName(a, r);
        SwallowedPiece(a.place, r.place);
      }
    }
  }

  /**
   Rendering and matching again gives the same groups exactly when two things do not happen: an '@' further on ends
   a longer user name and is followed by a host, or the host takes a piece of the text after it.
   */
  lemma RoundTripExactly(g: Groups)
    requires GroupsOk(g)
    ensures Match(Render(g)) == Some(g) <==>
            && !Stolen(RenderAuthority(g.authority), NameLength(g.authority))
            && !Swallows(RenderTail(g.authority.place.tail))
  {
    SchemeTaken(g);
    AuthoritySurvives(g.authority);
  }

  /** Without stray '@' none can be stolen, so that only the second can happen. */
  lemma RoundTripIff(g: Groups)
    requires GroupsOk(g) && NoStrayAt(g)
    ensures Match(Render(g)) == Some(g) <==> !Swallows(RenderTail(g.authority.place.tail))
  {
    var text, n := RenderAuthority(g.authority), NameLength(g.authority);
    RoundTripExactly(g);
    if Stolen(text, n) {
      var b := StolenAuthority(text, n);
      SameUser(g.authority, b);
    }
  }

  /** A port, a path, or nothing at all after the host keeps the host safe. */
  lemma DelimitedHostRoundTrips(g: Groups)
    requires GroupsOk(g) && NoStrayAt(g)
    requires var t := g.authority.place.tail; t.port.Some? || t.path.Some? || (t.query == None && t.fragment == None)
    ensures Match(Render(g)) == Some(g)
  {
    var tail := RenderTail(g.authority.place.tail);
    assert tail == "" || tail[0] in ":/";
    assert forall j | 0 < j <= |tail| :: !All(HostChar, tail[..j]) by {
      assert forall j | 0 < j <= |tail| :: tail[..j][0] == tail[0];
    }
    RoundTripIff(g);
  }

  /** Directly after the host, a query without '/' and ':' becomes part of the host. */
  lemma QueryWithoutPathIsSwallowed(scheme: string, host: string, query: string)
    requires scheme != "" && All(Lower, scheme) && host != "" && All(HostChar, host) && All(NotAt, host)
    requires All(HostChar, query) && All(NotAt, query)
    ensures Match(scheme + "://" + (host + ("?" + query))) ==
            Some(Groups(scheme, Authority(None, Place(host + ("?" + query), Tail(None, None, None, None)))))
  {
    var swallowed := host + ("?" + query);
    var g := Groups(scheme, Authority(None, Place(swallowed, Tail(None, None, None, None))));
    assert RenderTail(g.authority.place.tail) == "";
    assert RenderPlace(g.authority.place) == swallowed;
    assert "" + swallowed == swallowed;
    DelimitedHostRoundTrips(g);
  }

  /**
   An '@' in the path moves the host: what stood before the '@' becomes the user name, and what follows it
   the host, the port and the path.
   */
  lemma AtInPathIsStolen(scheme: string, host: string, x: string, p: Place)
    requires scheme != "" && All(Lower, scheme) && host != "" && All(NotColon, host + ("/" + x)) && All(NotAt, host + ("/" + x))
    requires PlaceOk(p) && All(NotAt, RenderPlace(p)) && !Swallows(RenderTail(p.tail))
    ensures Match(scheme + "://" + ((host + ("/" + x)) + "@" + RenderPlace(p))) ==
            Some(Groups(scheme, Authority(Some(User(host + ("/" + x), None)), p)))
  {
    var name := host + ("/" + x);
    var g := Groups(scheme, Authority(Some(User(name, None)), p));
    assert name + "" == name;
    RoundTripIff(g);
  }

  // ---------- The record ----------

  /** std::invalid_argument from the constructor, std::out_of_range from std::stoi. */
  datatype Error = InvalidUri | PortOutOfRange

  const MAX_INT := 0x7fff_ffff

  datatype Uri = Uri(str: string, scheme: string, username: string, password: string, host: string, port: int,
                     path: string, query: string, fragment: string)

  function Text(x: Option<string>): string {
    if x.Some? then x.value else ""
  }

  function DigitValue(c: char): nat
    requires In(Digit, c)
  {
    (c - '0') as nat
  }

  function Value(digits: string): nat
    requires All(Digit, digits)
  {
    if digits == "" then 0 else 10 * Value(digits[..|digits| - 1]) + DigitValue(digits[|digits| - 1])
  }

  function DefaultPort(scheme: string): int {
    if scheme == "http" then 80 else if scheme == "https" then 443 else 0
  }

  function Fields(str: string, g: Groups): Result<Uri, Error>
    requires GroupsOk(g)
  {
    var user, place := g.authority.user, g.authority.place;
    var port := if place.tail.port.Some? then Value(place.tail.port.value) else DefaultPort(g.scheme);
    if port > MAX_INT then Failure(PortOutOfRange)
    else Success(Uri(str, g.scheme,
                if user.Some? then user.value.name else "",
                if user.Some? then Text(user.value.password) else "",
                place.host, port,
                if place.tail.path.Some? then place.tail.path.value else "/",
                Text(place.tail.query), Text(place.tail.fragment)))
  }

  function Make(str: string): Result<Uri, Error> {
    if str == "" then Success(Uri("", "", "", "", "", 0, "", "", ""))
    else if Match(str) == None then Failure(InvalidUri)
    else
      MatchIsGreatestDecomposition(str);
      Fields(str, Match(str).value)
  }

  function DigitChar(d: nat): (c: char)
    requires d < 10
    ensures In(Digit, c) && DigitValue(c) == d
  {
    "0123456789"[d]
  }

  /** Ports are read as decimal numbers. */
  lemma ValueSnoc(front: string, c: char)
    requires All(Digit, front) && '0' <= c <= '9'
    ensures Value("") == 0
    ensures All(Digit, front + [c]) && Value(front + [c]) == 10 * Value(front) + (c as int - '0' as int)
  {
    assert (front + [c])[..|front + [c]| - 1] == front;
  }

  function Decimal(n: nat): (s: string)
    ensures s != "" && All(Digit, s) && Value(s) == n
  {
    var front := if n < 10 then "" else Decimal(n / 10);
    ValueSnoc(front, DigitChar(n % 10));
    front + [DigitChar(n % 10)]
  }

  function Given(x: string): Option<string> {
    if x == "" then None else Some(x)
  }

  /** The groups a record is written with: always a port, and empty parts left out. */
  function GroupsOf(u: Uri): Groups
    requires u.port >= 0
  {
    Groups(u.scheme,
           Authority(if u.username == "" then None else Some(User(u.username, Given(u.password))),
                     Place(u.host, Tail(Some(Decimal(u.port)), Some(u.path), Given(u.query), Given(u.fragment)))))
  }

  /** The parts of a URI, as far as the character classes alone go: any part may contain an '@' but for the password. */
  predicate Fits(u: Uri) {
    && u.scheme != "" && All(Lower, u.scheme)
    && All(NotColon, u.username) && All(NotAt, u.password) && (u.username == "" ==> u.password == "")
    && u.host != "" && All(HostChar, u.host)
    && 0 <= u.port <= MAX_INT
    && Starts(u.path, '/') && All(PathChar, u.path) && All(NotHash, u.query) && All(Dot, u.fragment)
  }

  /** Without '@' in any part either. */
  predicate Plain(u: Uri) {
    Fits(u) && All(NotAt, u.username) && All(NotAt, u.host) && All(NotAt, u.path) && All(NotAt, u.query) && All(NotAt, u.fragment)
  }

  lemma FieldsOfGroups(u: Uri, text: string)
    requires Fits(u)
    ensures GroupsOk(GroupsOf(u)) && Fields(text, GroupsOf(u)) == Success(u.(str := text))
  {
  }

  lemma PortKeepsHost(g: Groups)
    requires g.authority.place.tail.port.Some?
    ensures !Swallows(RenderTail(g.authority.place.tail))
  {
    var tail := RenderTail(g.authority.place.tail);
    assert tail[0] == ':';
    assert forall j | 0 < j <= |tail| :: tail[..j][0] == ':';
  }

  /**
   Writing the parts of a URI, its port included, and parsing the text gives the parts back exactly when no '@' in
   it ends a longer user name that a host follows.
   */
  lemma RoundTripUnlessStolen(u: Uri)
    requires Fits(u)
    ensures var g := GroupsOf(u);
            Make(Render(g)) == Success(u.(str := Render(g))) <==> !Stolen(RenderAuthority(g.authority), |u.username|)
  {
    var g := GroupsOf(u);
    FieldsOfGroups(u, Render(g));
    PortKeepsHost(g);
    RoundTripExactly(g);
    if Stolen(RenderAuthority(g.authority), |u.username|) {
      StolenName(u);
    } else {
      MakeMatched(Render(g), g);
    }
  }

  /** If an '@' is stolen, the user name that comes back is longer, if anything does. */
  lemma StolenName(u: Uri)
    requires Fits(u) && Stolen(RenderAuthority(GroupsOf(u).authority), |u.username|)
    ensures var r := Make(Render(GroupsOf(u))); r.Success? ==> |r.value.username| > |u.username|
  {
    var g := GroupsOf(u);
    FieldsOfGroups(u, "");
    LongerNameMatched(g);
    var m := Match(Render(g)).value;
    MakeMatched(Render(g), m);
    if Fields(Render(g), m).Success? {
      FieldsKeepName(Render(g), m);
    }
  }

  lemma MakeMatched(text: string, g: Groups)
    requires Match(text) == Some(g)
    ensures GroupsOk(g) && Make(text) == Fields(text, g)
  {
    MatchIsGreatestDecomposition(text);
    assert text != "" by {
      assert Decomposes(g, text);
    }
  }

  lemma FieldsKeepName(text: string, g: Groups)
    requires GroupsOk(g) && Fields(text, g).Success?
    ensures |Fields(text, g).value.username| == NameLength(g.authority)
  {
  }

  lemma LongerNameMatched(g: Groups)
    requires GroupsOk(g) && Stolen(RenderAuthority(g.authority), NameLength(g.authority))
    ensures Match(Render(g)).Some? && NameLength(Match(Render(g)).value.authority) > NameLength(g.authority)
  {
    SchemeTaken(g);
    LongerNameWins(RenderAuthority(g.authority), NameLength(g.authority));
  }

  lemma LongerNameWins(text: string, n: nat)
    requires Stolen(text, n)
    ensures MatchAuthority(text).Some? && NameLength(MatchAuthority(text).value) > n
  {
    var b := StolenAuthority(text, n);
    AuthorityIsGreatest(text);
    assert AuthorityOf(b, text);
  }

  /** Without stray '@' that never happens: the parts come back. */
  lemma RoundTrip(u: Uri)
    requires Plain(u)
    ensures var text := Render(GroupsOf(u)); Make(text) == Success(u.(str := text))
  {
    var g := GroupsOf(u);
    FieldsOfGroups(u, Render(g));
    NoAtInPlace(g.authority.place);
    DelimitedHostRoundTrips(g);
    assert Render(g) != "";
  }

  lemma NoAtInPlace(p: Place)
    requires All(NotAt, p.host) && TailOk(p.tail) && All(NotAt, Text(p.tail.path))
    requires All(NotAt, Text(p.tail.query)) && All(NotAt, Text(p.tail.fragment))
    ensures All(NotAt, RenderPlace(p))
  {
    assert All(NotAt, RenderFragment(p.tail));
    assert All(NotAt, RenderQuery(p.tail));
    assert All(NotAt, RenderPath(p.tail));
    assert All(NotAt, RenderTail(p.tail));
  }

  /** The constructor rejects exactly the nonempty strings that do not decompose, and ports beyond int. */
  lemma MakeRejects(str: string)
    ensures Make(str) == Failure(InvalidUri) <==> str != "" && forall g :: !Decomposes(g, str)
    ensures Make(str) == Failure(PortOutOfRange) <==> str != "" && Match(str).Some? && PortTooLarge(Match(str).value)
  {
    MatchIsGreatestDecomposition(str);
    if Match(str).Some? {
      assert Decomposes(Match(str).value, str);
      FieldsReject(str, Match(str).value);
    }
  }

  predicate PortTooLarge(g: Groups) {
    var port := g.authority.place.tail.port;
    port.Some? && All(Digit, port.value) && Value(port.value) > MAX_INT
  }

  lemma FieldsReject(str: string, g: Groups)
    requires GroupsOk(g)
    ensures if PortTooLarge(g) then Fields(str, g) == Failure(PortOutOfRange) else Fields(str, g).Success?
  {
  }

  /** Which records these are, character by character. */
  lemma PlainInCharacters(u: Uri)
    ensures Plain(u) <==>
            && u.scheme != "" && (forall c | c in u.scheme :: 'a' <= c <= 'z')
            && (forall c | c in u.username :: c != ':' && c != '@')
            && (forall c | c in u.password :: c != '@') && (u.username == "" ==> u.password == "")
            && u.host != "" && (forall c | c in u.host :: c != '/' && c != ':' && c != '@')
            && 0 <= u.port <= 2147483647
            && u.path != "" && u.path[0] == '/' && (forall c | c in u.path :: c != '?' && c != '#' && c != '@')
            && (forall c | c in u.query :: c != '#' && c != '@')
            && (forall c | c in u.fragment :: c != '\n' && c != '\r' && c != '@')
  {
    AllIn(Lower, u.scheme);
    AllIn(NotColon, u.username);
    AllIn(NotAt, u.username);
    AllIn(NotAt, u.password);
    AllIn(HostChar, u.host);
    AllIn(NotAt, u.host);
    AllIn(PathChar, u.path);
    AllIn(NotAt, u.path);
    AllIn(NotHash, u.query);
    AllIn(NotAt, u.query);
    AllIn(Dot, u.fragment);
    AllIn(NotAt, u.fragment);
  }

  /** What a port may consist of. */
  lemma DigitsInCharacters(s: string)
    ensures All(Digit, s) <==> forall c | c in s :: '0' <= c <= '9'
  {
    AllIn(Digit, s);
  }

  lemma AllIn(cls: Class, s: string)
    ensures All(cls, s) <==> forall c | c in s :: In(cls, c)
  {
    assert forall i | 0 <= i < |s| :: s[i] in s;
  }

  // ---------- What is filled in ----------

  /**
   Every accepted text gives a record whose parts are the matched groups: without a port, 80 for http, 443 for https
   and 0 otherwise; without a path, "/"; without any other part, nothing.
   */
  lemma MissingPartsAreFilledIn(text: string, g: Groups)
    requires Match(text) == Some(g)
    ensures GroupsOk(g)
    ensures var t, r := g.authority.place.tail, Make(text);
            && (r.Success? <==> (t.port.Some? ==> Value(t.port.value) <= 2147483647))
            && (r.Success? ==>
                  r.value.port == if t.port.Some? then Value(t.port.value)
                                  else if g.scheme == "http" then 80 else if g.scheme == "https" then 443 else 0)
    ensures var t, r := g.authority.place.tail, Make(text);
            r.Success? ==>
              && r.value.str == text && r.value.scheme == g.scheme && r.value.host == g.authority.place.host
              && r.value.path == (if t.path == None then "/" else t.path.value)
              && r.value.query == (if t.query == None then "" else t.query.value)
              && r.value.fragment == (if t.fragment == None then "" else t.fragment.value)
    ensures var u, r := g.authority.user, Make(text);
            r.Success? ==>
              && r.value.username == (if u == None then "" else u.value.name)
              && r.value.password == (if u == None || u.value.password == None then "" else u.value.password.value)
  {
    MakeMatched(text, g);
  }

  /** The empty text is a record of nothing. */
  lemma EmptyTextIsAccepted()
    ensures Make("") == Success(Uri("", "", "", "", "", 0, "", "", ""))
  {
  }

  /** A letter, a digit, or one of the marks that occur in host names. */
  predicate HostLetter(c: char) {
    'a' <= c <= 'z' || 'A' <= c <= 'Z' || '0' <= c <= '9' || c == '-' || c == '.' || c == '_'
  }

  /** Such a character, a slash, or another mark that means nothing to the parser. */
  predicate PathLetter(c: char) {
    HostLetter(c) || c == '/' || c == '~' || c == '%' || c == '+' || c == '=' || c == '&' || c == ',' || c == ';' || c == ':'
  }

  /** An everyday URI is parsed as one would read it. */
  lemma EverydayUri(scheme: string, host: string, path: string)
    requires scheme == "http" || scheme == "https"
    requires host != "" && forall c | c in host :: HostLetter(c)
    requires path == "" || (path[0] == '/' && forall c | c in path :: PathLetter(c))
    ensures var text := scheme + "://" + (host + path);
            Make(text) == Success(Uri(text, scheme, "", "", host, if scheme == "http" then 80 else 443,
                                      if path == "" then "/" else path, "", ""))
  {
    var g := Groups(scheme, Authority(None, Place(host, Tail(None, if path == "" then None else Some(path), None, None))));
    EverydayClasses(scheme, host, path);
    assert RenderTail(g.authority.place.tail) == path;
    assert "" + (host + path) == host + path;
    assert Render(g) == scheme + "://" + (host + path);
    AllConcat(NotAt, host, path);
    DelimitedHostRoundTrips(g);
    MissingPartsAreFilledIn(Render(g), g);
  }

  lemma EverydayClasses(scheme: string, host: string, path: string)
    requires scheme == "http" || scheme == "https"
    requires forall c | c in host :: HostLetter(c)
    requires path == "" || forall c | c in path :: PathLetter(c)
    ensures All(Lower, scheme) && All(HostChar, host) && All(NotAt, host) && All(PathChar, path) && All(NotAt, path)
  {
    assert forall i | 0 <= i < |host| :: host[i] in host;
    assert forall i | 0 <= i < |path| :: path[i] in path;
  }
}
