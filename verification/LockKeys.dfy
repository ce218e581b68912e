/** Lock requests: how lists of them are normalised and which ones the storage operations ask
    for (internal/lockmgr/lockmgr.go). */
module LockKeys {
  import opened Basics

  /** `Unknown` stands for every mode number that is neither shared nor exclusive. */
  datatype Mode = Shared | Exclusive | Unknown

  datatype Request = Request(key: string, mode: Mode)

  // ---------------------------------------------------------------------------
  // The order of keys

  predicate Less(left: string, right: string)
  {
    if right == "" then false
    else if left == "" then true
    else left[0] < right[0] || (left[0] == right[0] && Less(left[1..], right[1..]))
  }

  lemma {:induction false} LessTransitive(a: string, b: string, c: string)
    requires Less(a, b) && Less(b, c)
    ensures Less(a, c)
  {
    if a != "" && a[0] == b[0] && b[0] == c[0] {
      LessTransitive(a[1..], b[1..], c[1..]);
    }
  }

  lemma {:induction false} LessIrreflexive(a: string)
    ensures !Less(a, a)
  {
    if a != "" {
      LessIrreflexive(a[1..]);
    }
  }

  lemma {:induction false} LessAsymmetric(a: string, b: string)
    requires Less(a, b)
    ensures !Less(b, a) && a != b
  {
    LessIrreflexive(a);
    if Less(b, a) {
      LessTransitive(a, b, a);
    }
  }

  lemma {:induction false} LessTotal(a: string, b: string)
    ensures Less(a, b) || a == b || Less(b, a)
  {
    if a != "" && b != "" && a[0] == b[0] {
      LessTotal(a[1..], b[1..]);
      assert a == [a[0]] + a[1..] && b == [b[0]] + b[1..];
    }
  }

  // ---------------------------------------------------------------------------
  // Normalising

  ghost predicate Valid(requests: seq<Request>)
  {
    forall i :: 0 <= i < |requests| ==> requests[i].key != "" && !requests[i].mode.Unknown?
  }

  /** Some request in the list asks for the key in that mode. */
  ghost predicate Asks(requests: seq<Request>, key: string, mode: Mode)
  {
    exists i :: 0 <= i < |requests| && requests[i] == Request(key, mode)
  }

  predicate Sorted(requests: seq<Request>)
  {
    forall i, j :: 0 <= i < j < |requests| ==> Less(requests[i].key, requests[j].key)
  }

  /** What a list of requests wants of every key: exclusive access beats shared. */
  ghost predicate Strongest(requests: seq<Request>, modes: map<string, Mode>)
  {
    && (forall key :: key in modes <==> Asks(requests, key, Shared) || Asks(requests, key, Exclusive))
    && (forall key :: key in modes ==> modes[key] == if Asks(requests, key, Exclusive) then Exclusive else Shared)
  }

  lemma {:induction false} AsksOneMore(requests: seq<Request>, i: nat, key: string, mode: Mode)
    requires i < |requests|
    ensures Asks(requests[..i + 1], key, mode) <==> Asks(requests[..i], key, mode) || requests[i] == Request(key, mode)
  {
    var before, after := requests[..i], requests[..i + 1];
    assert forall k :: 0 <= k < i ==> after[k] == before[k];
    assert after[i] == requests[i];
  }

  lemma {:induction false} StrongestStep(requests: seq<Request>, i: nat, modes: map<string, Mode>, next: map<string,
                                         Mode>)
    requires i < |requests| && Strongest(requests[..i], modes) && !requests[i].mode.Unknown?
    requires
      var request := requests[i];
      next == if request.key !in modes || (request.mode.Exclusive? && modes[request.key].Shared?)
              then modes[request.key := request.mode] else modes
    ensures Strongest(requests[..i + 1], next)
  {
    forall key, mode ensures Asks(requests[..i + 1], key, mode) <==>
        Asks(requests[..i], key, mode) || requests[i] == Request(key, mode) {
      AsksOneMore(requests, i, key, mode);
    }
  }

  /** Puts a request with a new key into its place. */
  function Insert(sorted: seq<Request>, request: Request): (r: seq<Request>)
  {
    if sorted == [] || Less(request.key, sorted[0].key) then [request] + sorted
    else [sorted[0]] + Insert(sorted[1..], request)
  }

  lemma {:induction false} InsertMember(sorted: seq<Request>, request: Request, x: Request)
    ensures x in Insert(sorted, request) <==> x == request || x in sorted
  {
    if sorted == [] || Less(request.key, sorted[0].key) {
    } else {
      InsertMember(sorted[1..], request, x);
      assert sorted == [sorted[0]] + sorted[1..];
    }
  }

  lemma {:induction false} InsertSorted(sorted: seq<Request>, request: Request)
    requires Sorted(sorted) && forall x :: x in sorted ==> x.key != request.key
    ensures Sorted(Insert(sorted, request))
  {
    if sorted == [] {
    } else if Less(request.key, sorted[0].key) {
      forall j | 0 < j < |sorted| ensures Less(request.key, sorted[j].key) {
        LessTransitive(request.key, sorted[0].key, sorted[j].key);
      }
    } else {
      var rest := Insert(sorted[1..], request);
      InsertSorted(sorted[1..], request);
      LessTotal(sorted[0].key, request.key);
      forall j | 0 <= j < |rest| ensures Less(sorted[0].key, rest[j].key) {
        InsertMember(sorted[1..], request, rest[j]);
        if rest[j] != request {
          var k :| 0 <= k < |sorted[1..]| && sorted[1..][k] == rest[j];
          assert sorted[k + 1] == rest[j];
        }
      }
    }
  }

  /** The list holds exactly the entries of the map. */
  ghost predicate Lists(requests: seq<Request>, modes: map<string, Mode>)
  {
    forall request: Request :: request in requests <==> request.key in modes && modes[request.key] == request.mode
  }

  /** The requests of a map in key order. The map is visited in an arbitrary order. */
  method SortRequests(modes: map<string, Mode>) returns (sorted: seq<Request>)
    ensures Sorted(sorted) && Lists(sorted, modes)
  {
    sorted := [];
    var todo, done := modes.Keys, map[];
    while todo != {}
      invariant Sorted(sorted) && Lists(sorted, done)
      invariant todo <= modes.Keys && done == map key | key in modes && key !in todo :: modes[key]
    {
      var key :| key in todo;
      ghost var before := sorted;
      var request := Request(key, modes[key]);
      InsertSorted(sorted, request);
      forall x ensures x in Insert(before, request) <==> x == request || x in before {
        InsertMember(before, request, x);
      }
      sorted := Insert(sorted, request);
      done := done[key := modes[key]];
      todo := todo - {key};
    }
    assert done == modes;
  }

  /** The normal form of a list of requests: one request a key, in key order, exclusive exactly
      where some request was. */
  ghost predicate NormalFormOf(requests: seq<Request>, normal: seq<Request>)
  {
    && Sorted(normal)
    && (forall key :: Asks(normal, key, Exclusive) <==> Asks(requests, key, Exclusive))
    && (forall key :: Asks(normal, key, Shared) <==> Asks(requests, key, Shared) && !Asks(requests, key, Exclusive))
    && (forall key :: !Asks(normal, key, Unknown))
  }

  lemma {:induction false} ListsStrongest(requests: seq<Request>, modes: map<string, Mode>, normal: seq<Request>)
    requires Strongest(requests, modes) && Lists(normal, modes) && Sorted(normal)
    ensures NormalFormOf(requests, normal)
  {
    forall key, mode ensures Asks(normal, key, mode) <==> key in modes && modes[key] == mode {
      assert Request(key, mode) in normal <==> key in modes && modes[key] == mode;
    }
  }

  lemma {:induction false} AsksMember(requests: seq<Request>, x: Request)
    ensures x in requests <==> Asks(requests, x.key, x.mode)
  {
  }

  /** Two normal forms of the same requests are the same list: the order in which the map is
      visited does not matter. */
  lemma {:induction false} NormalFormUnique(requests: seq<Request>, left: seq<Request>, right: seq<Request>)
    requires NormalFormOf(requests, left) && NormalFormOf(requests, right)
    ensures left == right
  {
    forall x: Request ensures x in left <==> x in right {
      AsksMember(left, x);
      AsksMember(right, x);
      match x.mode
      case Shared => assert Asks(left, x.key, Shared) <==> Asks(right, x.key, Shared);
      case Exclusive => assert Asks(left, x.key, Exclusive) <==> Asks(right, x.key, Exclusive);
      case Unknown => assert Asks(left, x.key, Unknown) <==> Asks(right, x.key, Unknown);
    }
    SortedSameMembers(left, right);
  }

  lemma {:induction false} FirstIsLeast(requests: seq<Request>, x: Request)
    requires Sorted(requests) && x in requests
    ensures x == requests[0] || Less(requests[0].key, x.key)
  {
  }

  lemma {:induction false} TailMembers(requests: seq<Request>, x: Request)
    requires Sorted(requests) && requests != []
    ensures x in requests[1..] <==> x in requests && x != requests[0]
  {
    if x in requests[1..] {
      var k :| 0 <= k < |requests[1..]| && requests[1..][k] == x;
      assert requests[k + 1] == x;
      LessAsymmetric(requests[0].key, x.key);
    }
  }

  lemma {:induction false} SortedSameMembers(left: seq<Request>, right: seq<Request>)
    requires Sorted(left) && Sorted(right) && forall x :: x in left <==> x in right
    ensures left == right
  {
    assert left != [] ==> left[0] in right;
    assert right != [] ==> right[0] in left;
    if left != [] && right != [] {
      FirstIsLeast(right, left[0]);
      FirstIsLeast(left, right[0]);
      if left[0] != right[0] {
        LessAsymmetric(left[0].key, right[0].key);
      }
      forall x ensures x in left[1..] <==> x in right[1..] {
        TailMembers(left, x);
        TailMembers(right, x);
      }
      SortedSameMembers(left[1..], right[1..]);
      assert left == [left[0]] + left[1..] && right == [right[0]] + right[1..];
    }
  }

  /** normalizeRequests. */
  method NormalizeRequests(requests: seq<Request>) returns (normal: Option<seq<Request>>)
    ensures normal.Some? <==> Valid(requests)
    ensures normal.Some? ==> NormalFormOf(requests, normal.value)
  {
    var modes: map<string, Mode> := map[];
    for i := 0 to |requests|
      invariant Valid(requests[..i]) && Strongest(requests[..i], modes)
    {
      var request := requests[i];
      if request.key == "" || request.mode.Unknown? {
        return None;
      }
      var next := if request.key !in modes || (request.mode.Exclusive? && modes[request.key].Shared?)
                  then modes[request.key := request.mode] else modes;
      StrongestStep(requests, i, modes, next);
      modes := next;
    }
    assert requests[..|requests|] == requests;
    var sorted := SortRequests(modes);
    ListsStrongest(requests, modes, sorted);
    normal := Some(sorted);
  }

  // ---------------------------------------------------------------------------
  // Paths

  function Split(path: string): (parts: seq<string>)
    ensures |parts| > 0
  {
    if path == "" then [""]
    else
      var rest := Split(path[1..]);
      if path[0] == '/' then [""] + rest else [[path[0]] + rest[0]] + rest[1..]
  }

  function Join(parts: seq<string>): (path: string)
  {
    if parts == [] then ""
    else if |parts| == 1 then parts[0]
    else parts[0] + "/" + Join(parts[1..])
  }

  /** Splitting loses nothing. */
  lemma {:induction false} JoinSplit(path: string)
    ensures Join(Split(path)) == path
  {
    if path != "" {
      var rest := Split(path[1..]);
      JoinSplit(path[1..]);
      if path[0] == '/' {
        assert ([""] + rest)[1..] == rest;
        assert Join(Split(path)) == "" + "/" + Join(rest);
      } else {
        var parts := [[path[0]] + rest[0]] + rest[1..];
        if |rest| > 1 {
          assert parts[1..] == rest[1..];
          assert Join(parts) == [path[0]] + rest[0] + "/" + Join(rest[1..]);
          assert Join(parts) == [path[0]] + Join(rest);
        }
      }
      assert path == [path[0]] + path[1..];
    }
  }

  ghost predicate SlashFree(part: string)
  {
    '/' !in part
  }

  /** The pieces that splitting gives hold no slash. */
  lemma {:induction false} SplitSlashFree(path: string, i: nat)
    requires i < |Split(path)|
    ensures SlashFree(Split(path)[i])
  {
    if path != "" {
      var rest := Split(path[1..]);
      if path[0] == '/' {
        if i > 0 {
          SplitSlashFree(path[1..], i - 1);
        }
      } else {
        SplitSlashFree(path[1..], i);
      }
    }
  }

  lemma {:induction false} HeadOf(piece: string, rest: string)
    ensures piece != "" ==> (piece + "/" + rest)[0] == piece[0] && (piece + "/" + rest)[1..] == piece[1..] + "/" + rest
    ensures piece == "" ==> (piece + "/" + rest)[0] == '/' && (piece + "/" + rest)[1..] == rest
  {
  }

  /** A slash-free piece and a slash at its end can be read off a string. */
  lemma {:induction false} FirstPiece(left: string, right: string, x: string, y: string)
    requires SlashFree(left) && SlashFree(right) && left + "/" + x == right + "/" + y
    ensures left == right && x == y
  {
    HeadOf(left, x);
    HeadOf(right, y);
    if left != "" && right != "" {
      FirstPiece(left[1..], right[1..], x, y);
      assert left == [left[0]] + left[1..] && right == [right[0]] + right[1..];
    }
  }

  lemma {:induction false} TailOf(rest: string, piece: string)
    ensures
      var whole := rest + "/" + piece;
      && (piece != "" ==>
          whole[|whole| - 1] == piece[|piece| - 1] && whole[..|whole| - 1] == rest + "/" + piece[..|piece| - 1])
      && (piece == "" ==> whole[|whole| - 1] == '/' && whole[..|whole| - 1] == rest)
  {
    var whole := rest + "/" + piece;
    if piece != "" {
      assert whole == (rest + "/" + piece[..|piece| - 1]) + [piece[|piece| - 1]];
    } else {
      assert whole == rest + "/";
    }
  }

  /** ... and so can one at the end of a string. */
  lemma {:induction false} LastPiece(x: string, y: string, left: string, right: string)
    requires SlashFree(left) && SlashFree(right) && x + "/" + left == y + "/" + right
    ensures left == right && x == y
    decreases |left|
  {
    TailOf(x, left);
    TailOf(y, right);
    if left != "" && right != "" {
      LastPiece(x, y, left[..|left| - 1], right[..|right| - 1]);
      assert left == left[..|left| - 1] + [left[|left| - 1]] && right == right[..|right| - 1] + [right[|right| - 1]];
    }
  }

  ghost predicate AllSlashFree(parts: seq<string>)
  {
    forall i :: 0 <= i < |parts| ==> SlashFree(parts[i])
  }

  lemma {:induction false} JoinHasSlash(parts: seq<string>, whole: string)
    requires |parts| > 1 && SlashFree(whole)
    ensures Join(parts) != whole
  {
    assert Join(parts)[|parts[0]|] == '/';
  }

  /** Joining loses nothing either. */
  lemma {:induction false} JoinInjective(left: seq<string>, right: seq<string>)
    requires |left| > 0 && |right| > 0 && AllSlashFree(left) && AllSlashFree(right) && Join(left) == Join(right)
    ensures left == right
    decreases |left|
  {
    if |left| == 1 {
      if |right| > 1 {
        JoinHasSlash(right, left[0]);
      }
    } else if |right| == 1 {
      JoinHasSlash(left, right[0]);
    } else {
      FirstPiece(left[0], right[0], Join(left[1..]), Join(right[1..]));
      JoinInjective(left[1..], right[1..]);
      assert left == [left[0]] + left[1..] && right == [right[0]] + right[1..];
    }
  }

  lemma {:induction false} PiecesSlashFree(path: string, count: nat)
    requires count <= |Split(path)|
    ensures AllSlashFree(Split(path)[..count])
  {
    forall i | 0 <= i < count ensures SlashFree(Split(path)[..count][i]) {
      SplitSlashFree(path, i);
    }
  }

  // ---------------------------------------------------------------------------
  // The requests of storage operations

  /** A repository: a group path and a name without a slash. */
  datatype Repository = Repository(group: string, name: string)

  /** Keys of one storage root; `scope` is the digest of the root's canonical path. */
  function ResourceKey(kind: string, scope: string, value: string): (key: string)
  {
    kind + ":" + scope + ":" + value
  }

  function CatalogRequest(scope: string, mode: Mode): (request: Request)
  {
    Request(ResourceKey("00-catalog", scope, "catalog"), mode)
  }

  function GroupKey(scope: string, parts: seq<string>): (key: string)
  {
    ResourceKey("10-group", scope, Join(parts))
  }

  function RepositoryKey(scope: string, repository: Repository): (key: string)
  {
    ResourceKey("20-repository", scope, repository.group + "/" + repository.name)
  }

  /** groupAncestryRequests as a specification: shared on every proper ancestor and the
      terminal mode on the group itself. */
  function AncestryFrom(scope: string, parts: seq<string>, count: nat, terminal: Mode): (requests: seq<Request>)
    requires count <= |parts|
    decreases |parts| - count
  {
    if count == |parts| then []
    else [Request(GroupKey(scope, parts[..count + 1]), if count + 1 == |parts| then terminal else Shared)]
         + AncestryFrom(scope, parts, count + 1, terminal)
  }

  function Ancestry(scope: string, group: string, terminal: Mode): (requests: seq<Request>)
  {
    AncestryFrom(scope, Split(group), 0, terminal)
  }

  function RepositoryRequests(scope: string, repositories: seq<Repository>, mode: Mode): (requests: seq<Request>)
  {
    if repositories == [] then [CatalogRequest(scope, Shared)]
    else
      var last := repositories[|repositories| - 1];
      RepositoryRequests(scope, repositories[..|repositories| - 1], mode)
      + Ancestry(scope, last.group, Shared) + [Request(RepositoryKey(scope, last), mode)]
  }

  function GroupRequests(scope: string, groups: seq<string>, mode: Mode): (requests: seq<Request>)
  {
    if groups == [] then [CatalogRequest(scope, Shared)]
    else GroupRequests(scope, groups[..|groups| - 1], mode) + Ancestry(scope, groups[|groups| - 1], mode)
  }

  // ---------------------------------------------------------------------------
  // Which requests conflict

  /** Two lists of requests cannot be held at the same time. */
  ghost predicate Conflict(left: seq<Request>, right: seq<Request>)
  {
    exists key: string ::
      || (Asks(left, key, Exclusive) && (Asks(right, key, Exclusive) || Asks(right, key, Shared)))
      || (Asks(right, key, Exclusive) && Asks(left, key, Shared))
  }

  /** Normalising does not change what conflicts. */
  lemma {:induction false} ConflictOfNormal(left: seq<Request>, right: seq<Request>, x: seq<Request>, y: seq<Request>)
    requires NormalFormOf(left, x) && NormalFormOf(right, y)
    ensures Conflict(left, right) <==> Conflict(x, y)
  {
    if Conflict(left, right) {
      var key :| (Asks(left, key, Exclusive) && (Asks(right, key, Exclusive) || Asks(right, key, Shared)))
              || (Asks(right, key, Exclusive) && Asks(left, key, Shared));
      assert Asks(x, key, Exclusive) || Asks(x, key, Shared);
    }
    if Conflict(x, y) {
      var key :| (Asks(x, key, Exclusive) && (Asks(y, key, Exclusive) || Asks(y, key, Shared)))
              || (Asks(y, key, Exclusive) && Asks(x, key, Shared));
      assert Asks(left, key, Exclusive) || Asks(left, key, Shared);
    }
  }

  lemma {:induction false} AsksAppend(left: seq<Request>, right: seq<Request>, key: string, mode: Mode)
    ensures Asks(left + right, key, mode) <==> Asks(left, key, mode) || Asks(right, key, mode)
  {
    var both := left + right;
    if Asks(left, key, mode) {
      var i :| 0 <= i < |left| && left[i] == Request(key, mode);
      assert both[i] == left[i];
    }
    if Asks(right, key, mode) {
      var i :| 0 <= i < |right| && right[i] == Request(key, mode);
      assert both[|left| + i] == right[i];
    }
    if Asks(both, key, mode) {
      var i :| 0 <= i < |both| && both[i] == Request(key, mode);
      assert both[i] == if i < |left| then left[i] else right[i - |left|];
    }
  }

  lemma {:induction false} AsksSingle(request: Request, key: string, mode: Mode)
    ensures Asks([request], key, mode) <==> request == Request(key, mode)
  {
    if request == Request(key, mode) {
      assert [request][0] == Request(key, mode);
    }
  }

  /** `parts` is `whole` or an ancestor of it. */
  ghost predicate Within(parts: seq<string>, whole: seq<string>)
  {
    parts != [] && |parts| <= |whole| && parts == whole[..|parts|]
  }

  lemma {:induction false} AncestryFromAsks(scope: string, parts: seq<string>, count: nat, terminal: Mode,
                                            key: string, mode: Mode)
    requires count <= |parts|
    ensures Asks(AncestryFrom(scope, parts, count, terminal), key, mode) <==>
            exists n :: count < n <= |parts| && key == GroupKey(scope, parts[..n])
                && mode == if n == |parts| then terminal else Shared
    decreases |parts| - count
  {
    if count < |parts| {
      var head := Request(GroupKey(scope, parts[..count + 1]), if count + 1 == |parts| then terminal else Shared);
      AncestryFromAsks(scope, parts, count + 1, terminal, key, mode);
      AsksAppend([head], AncestryFrom(scope, parts, count + 1, terminal), key, mode);
      AsksSingle(head, key, mode);
    }
  }

  lemma {:induction false} AncestryAsks(scope: string, group: string, terminal: Mode, key: string, mode: Mode)
    ensures Asks(Ancestry(scope, group, terminal), key, mode) <==> OnTheWay(scope, group, terminal, key, mode)
  {
    AncestryFromAsks(scope, Split(group), 0, terminal, key, mode);
  }

  /** The key is that of the group or of an ancestor, with the mode the group's requests have there. */
  ghost predicate OnTheWay(scope: string, group: string, terminal: Mode, key: string, mode: Mode)
  {
    var parts := Split(group);
    exists n :: 0 < n <= |parts| && key == GroupKey(scope, parts[..n])
        && mode == if n == |parts| then terminal else Shared
  }

  lemma {:induction false} GroupsAsk(scope: string, groups: seq<string>, terminal: Mode, key: string, mode: Mode)
    ensures Asks(GroupRequests(scope, groups, terminal), key, mode) <==>
            || CatalogRequest(scope, Shared) == Request(key, mode)
            || exists i :: 0 <= i < |groups| && OnTheWay(scope, groups[i], terminal, key, mode)
  {
    if groups == [] {
      AsksSingle(CatalogRequest(scope, Shared), key, mode);
    } else {
      var front, last := groups[..|groups| - 1], groups[|groups| - 1];
      GroupsAsk(scope, front, terminal, key, mode);
      AsksAppend(GroupRequests(scope, front, terminal), Ancestry(scope, last, terminal), key, mode);
      AncestryAsks(scope, last, terminal, key, mode);
      assert forall i :: 0 <= i < |front| ==> front[i] == groups[i];
    }
  }

  lemma {:induction false} RepositoriesAsk(scope: string, repositories: seq<Repository>, terminal: Mode, key: string,
                                           mode: Mode)
    ensures Asks(RepositoryRequests(scope, repositories, terminal), key, mode) <==>
            || CatalogRequest(scope, Shared) == Request(key, mode)
            || (exists i :: 0 <= i < |repositories| && OnTheWay(scope, repositories[i].group, Shared, key, mode))
            || (exists i :: 0 <= i < |repositories| &&
                            Request(RepositoryKey(scope, repositories[i]), terminal) == Request(key, mode))
  {
    if repositories == [] {
      AsksSingle(CatalogRequest(scope, Shared), key, mode);
    } else {
      var front, last := repositories[..|repositories| - 1], repositories[|repositories| - 1];
      RepositoriesAsk(scope, front, terminal, key, mode);
      var own := Request(RepositoryKey(scope, last), terminal);
      AsksAppend(RepositoryRequests(scope, front, terminal) + Ancestry(scope, last.group, Shared), [own], key, mode);
      AsksAppend(RepositoryRequests(scope, front, terminal), Ancestry(scope, last.group, Shared), key, mode);
      AncestryAsks(scope, last.group, Shared, key, mode);
      AsksSingle(own, key, mode);
      assert forall i :: 0 <= i < |front| ==> front[i] == repositories[i];
    }
  }

  // Keys of one kind tell their values apart, and keys of two kinds never meet.

  lemma {:induction false} KeyInjective(kind: string, scope: string, left: string, right: string)
    requires ResourceKey(kind, scope, left) == ResourceKey(kind, scope, right)
    ensures left == right
  {
    var head := kind + ":" + scope + ":";
    assert ResourceKey(kind, scope, left)[|head|..] == left && ResourceKey(kind, scope, right)[|head|..] == right;
  }

  lemma {:induction false} KindsApart(scope: string, group: seq<string>, repository: Repository)
    ensures GroupKey(scope, group) != RepositoryKey(scope, repository)
    ensures GroupKey(scope, group) != CatalogRequest(scope, Shared).key
    ensures RepositoryKey(scope, repository) != CatalogRequest(scope, Shared).key
  {
    assert GroupKey(scope, group)[0] == '1';
    assert RepositoryKey(scope, repository)[0] == '2';
    assert CatalogRequest(scope, Shared).key[0] == '0';
  }

  lemma {:induction false} GroupKeysMeet(scope: string, left: string, right: string, n: nat)
    requires 0 < n <= |Split(right)| && GroupKey(scope, Split(left)) == GroupKey(scope, Split(right)[..n])
    ensures Within(Split(left), Split(right))
  {
    KeyInjective("10-group", scope, Join(Split(left)), Join(Split(right)[..n]));
    PiecesSlashFree(left, |Split(left)|);
    PiecesSlashFree(right, n);
    assert Split(left)[..|Split(left)|] == Split(left);
    JoinInjective(Split(left), Split(right)[..n]);
  }

  /** Only the group's own key is asked for exclusively. */
  lemma {:induction false} ExclusiveIsOwn(scope: string, group: string, terminal: Mode, key: string)
    ensures OnTheWay(scope, group, terminal, key, Exclusive) <==>
        terminal.Exclusive? && key == GroupKey(scope, Split(group))
  {
    var parts := Split(group);
    assert parts[..|parts|] == parts;
    if terminal.Exclusive? && key == GroupKey(scope, parts) {
      assert key == GroupKey(scope, parts[..|parts|]);
    }
  }

  lemma {:induction false} WithinIsOnTheWay(scope: string, left: string, right: string, terminal: Mode)
    requires Within(Split(left), Split(right))
    ensures OnTheWay(scope, right, terminal, GroupKey(scope, Split(left)), if Split(left) == Split(right)
        then terminal else Shared)
  {
    var n := |Split(left)|;
    assert Split(left) == Split(right)[..n];
    assert n == |Split(right)| ==> Split(right)[..n] == Split(right);
  }

  lemma {:induction false} OnTheWayIsWithin(scope: string, left: string, right: string, terminal: Mode, mode: Mode)
    requires OnTheWay(scope, right, terminal, GroupKey(scope, Split(left)), mode)
    ensures Within(Split(left), Split(right))
  {
    var n :| 0 < n <= |Split(right)| && GroupKey(scope, Split(left)) == GroupKey(scope, Split(right)[..n]);
    GroupKeysMeet(scope, left, right, n);
  }

  /** Some of the groups is the group of some of the repositories or lies above it. */
  ghost predicate SomeContains(groups: seq<string>, repositories: seq<Repository>)
  {
    exists i, j :: 0 <= i < |groups| && 0 <= j < |repositories|
        && Within(Split(groups[i]), Split(repositories[j].group))
  }

  lemma {:induction false} ContainsConflicts(scope: string, groups: seq<string>, repositories: seq<Repository>,
                                             mode: Mode)
    requires SomeContains(groups, repositories)
    ensures Conflict(GroupRequests(scope, groups, Exclusive), RepositoryRequests(scope, repositories, mode))
  {
    var i, j :| 0 <= i < |groups| && 0 <= j < |repositories| && Within(Split(groups[i]), Split(repositories[j].group));
    var key := GroupKey(scope, Split(groups[i]));
    ExclusiveIsOwn(scope, groups[i], Exclusive, key);
    GroupsAsk(scope, groups, Exclusive, key, Exclusive);
    WithinIsOnTheWay(scope, groups[i], repositories[j].group, Shared);
    RepositoriesAsk(scope, repositories, mode, key, Shared);
  }

  lemma {:induction false} RepositoriesShareGroups(scope: string, repositories: seq<Repository>, mode: Mode,
                                                   key: string)
    requires Asks(RepositoryRequests(scope, repositories, mode), key, Exclusive)
    ensures mode.Exclusive? && exists j :: 0 <= j < |repositories| && key == RepositoryKey(scope, repositories[j])
  {
    RepositoriesAsk(scope, repositories, mode, key, Exclusive);
    forall j | 0 <= j < |repositories| ensures !OnTheWay(scope, repositories[j].group, Shared, key, Exclusive) {
      ExclusiveIsOwn(scope, repositories[j].group, Shared, key);
    }
  }

  lemma {:induction false} GroupsExclusively(scope: string, groups: seq<string>, key: string) returns (i: nat)
    requires Asks(GroupRequests(scope, groups, Exclusive), key, Exclusive)
    ensures i < |groups| && key == GroupKey(scope, Split(groups[i]))
  {
    GroupsAsk(scope, groups, Exclusive, key, Exclusive);
    i :| 0 <= i < |groups| && OnTheWay(scope, groups[i], Exclusive, key, Exclusive);
    ExclusiveIsOwn(scope, groups[i], Exclusive, key);
  }

  lemma {:induction false} RepositoryKeyNotInGroups(scope: string, groups: seq<string>, repository: Repository,
                                                    mode: Mode)
    ensures !Asks(GroupRequests(scope, groups, Exclusive), RepositoryKey(scope, repository), mode)
  {
    GroupsAsk(scope, groups, Exclusive, RepositoryKey(scope, repository), mode);
    forall i | 0 <= i < |groups| ensures !OnTheWay(scope, groups[i], Exclusive, RepositoryKey(scope, repository),
        mode) {
      forall n | 0 < n <= |Split(groups[i])| ensures RepositoryKey(scope, repository)
          != GroupKey(scope, Split(groups[i])[..n]) {
        KindsApart(scope, Split(groups[i])[..n], repository);
      }
    }
    KindsApart(scope, [], repository);
  }

  lemma {:induction false} GroupKeyAskedByRepositories(scope: string, group: string, repositories: seq<Repository>,
                                                       mode: Mode, asked: Mode)
    requires Asks(RepositoryRequests(scope, repositories, mode), GroupKey(scope, Split(group)), asked)
    ensures exists j :: 0 <= j < |repositories| && Within(Split(group), Split(repositories[j].group))
  {
    var key := GroupKey(scope, Split(group));
    RepositoriesAsk(scope, repositories, mode, key, asked);
    forall j | 0 <= j < |repositories| ensures RepositoryKey(scope, repositories[j]) != key {
      KindsApart(scope, Split(group), repositories[j]);
    }
    KindsApart(scope, Split(group), Repository("", ""));
    var j :| 0 <= j < |repositories| && OnTheWay(scope, repositories[j].group, Shared, key, asked);
    OnTheWayIsWithin(scope, group, repositories[j].group, Shared, asked);
  }

  /** An exclusive lock on groups and a request for repositories exclude each other exactly when
      one of the groups is a path prefix of one of the repositories' groups. */
  lemma {:induction false} GroupExcludesRepository(scope: string, groups: seq<string>, repositories: seq<Repository>,
                                                   mode: Mode)
    ensures Conflict(GroupRequests(scope, groups, Exclusive), RepositoryRequests(scope, repositories, mode))
            <==> SomeContains(groups, repositories)
  {
    var left, right := GroupRequests(scope, groups, Exclusive), RepositoryRequests(scope, repositories, mode);
    if SomeContains(groups, repositories) {
      ContainsConflicts(scope, groups, repositories, mode);
    }
    if Conflict(left, right) {
      var key: string :| || (Asks(left, key, Exclusive) && (Asks(right, key, Exclusive) || Asks(right, key, Shared)))
                         || (Asks(right, key, Exclusive) && Asks(left, key, Shared));
      var asked := if Asks(right, key, Exclusive) then Exclusive else Shared;
      assert Asks(right, key, asked);
      if asked.Exclusive? {
        RepositoriesShareGroups(scope, repositories, mode, key);
        var j :| 0 <= j < |repositories| && key == RepositoryKey(scope, repositories[j]);
        RepositoryKeyNotInGroups(scope, groups, repositories[j], Exclusive);
        RepositoryKeyNotInGroups(scope, groups, repositories[j], Shared);
      }
      var i := GroupsExclusively(scope, groups, key);
      GroupKeyAskedByRepositories(scope, groups[i], repositories, mode, asked);
    }
  }

  /** Two repository requests exclude each other exactly when they name the same repository and
      one of them is exclusive. */
  lemma {:induction false} RepositoryExcludesRepository(scope: string, left: Repository, right: Repository, x: Mode,
                                                        y: Mode)
    requires SlashFree(left.name) && SlashFree(right.name) && !x.Unknown? && !y.Unknown?
    ensures Conflict(RepositoryRequests(scope, [left], x), RepositoryRequests(scope, [right], y))
            <==> left == right && (x.Exclusive? || y.Exclusive?)
  {
    var first, second := RepositoryRequests(scope, [left], x), RepositoryRequests(scope, [right], y);
    if left == right && (x.Exclusive? || y.Exclusive?) {
      var key := RepositoryKey(scope, left);
      assert [left][0] == left && [right][0] == left;
      RepositoriesAsk(scope, [left], x, key, x);
      RepositoriesAsk(scope, [right], y, key, y);
      assert Asks(first, key, x) && Asks(second, key, y);
    }
    if Conflict(first, second) {
      var key: string :| || (Asks(first, key, Exclusive) && (Asks(second, key, Exclusive) || Asks(second, key, Shared)))
                         || (Asks(second, key, Exclusive) && Asks(first, key, Shared));
      if Asks(first, key, Exclusive) {
        var asked := if Asks(second, key, Exclusive) then Exclusive else Shared;
        SameRepository(scope, left, right, x, y, key, asked);
      } else {
        SameRepository(scope, right, left, y, x, key, Shared);
      }
    }
  }

  lemma {:induction false} SameRepository(scope: string, left: Repository, right: Repository, x: Mode, y: Mode,
                                          key: string, asked: Mode)
    requires SlashFree(left.name) && SlashFree(right.name)
    requires Asks(RepositoryRequests(scope, [left], x), key, Exclusive)
        && Asks(RepositoryRequests(scope, [right], y), key, asked)
    ensures left == right && x.Exclusive?
  {
    RepositoriesShareGroups(scope, [left], x, key);
    assert key == RepositoryKey(scope, left);
    RepositoriesAsk(scope, [right], y, key, asked);
    forall n | 0 < n <= |Split(right.group)| ensures key != GroupKey(scope, Split(right.group)[..n]) {
      KindsApart(scope, Split(right.group)[..n], left);
    }
    KindsApart(scope, [], left);
    assert RepositoryKey(scope, left) == RepositoryKey(scope, right);
    KeyInjective("20-repository", scope, left.group + "/" + left.name, right.group + "/" + right.name);
    LastPiece(left.group, right.group, left.name, right.name);
  }

  /** One of the groups is one of the others or lies above it. */
  ghost predicate SomeWithin(upper: seq<string>, lower: seq<string>)
  {
    exists i, j :: 0 <= i < |upper| && 0 <= j < |lower| && Within(Split(upper[i]), Split(lower[j]))
  }

  lemma {:induction false} WithinConflicts(scope: string, upper: seq<string>, lower: seq<string>)
    requires SomeWithin(upper, lower)
    ensures Conflict(GroupRequests(scope, upper, Exclusive), GroupRequests(scope, lower, Exclusive))
    ensures Conflict(GroupRequests(scope, lower, Exclusive), GroupRequests(scope, upper, Exclusive))
  {
    var i, j :| 0 <= i < |upper| && 0 <= j < |lower| && Within(Split(upper[i]), Split(lower[j]));
    var key := GroupKey(scope, Split(upper[i]));
    ExclusiveIsOwn(scope, upper[i], Exclusive, key);
    GroupsAsk(scope, upper, Exclusive, key, Exclusive);
    WithinIsOnTheWay(scope, upper[i], lower[j], Exclusive);
    GroupsAsk(scope, lower, Exclusive, key, if Split(upper[i]) == Split(lower[j]) then Exclusive else Shared);
  }

  lemma {:induction false} AskedIsWithin(scope: string, upper: seq<string>, lower: seq<string>, key: string, mode: Mode)
    requires Asks(GroupRequests(scope, upper, Exclusive), key, Exclusive)
    requires Asks(GroupRequests(scope, lower, Exclusive), key, mode)
    ensures SomeWithin(upper, lower)
  {
    var i := GroupsExclusively(scope, upper, key);
    GroupsAsk(scope, lower, Exclusive, key, mode);
    KindsApart(scope, Split(upper[i]), Repository("", ""));
    var j :| 0 <= j < |lower| && OnTheWay(scope, lower[j], Exclusive, key, mode);
    OnTheWayIsWithin(scope, upper[i], lower[j], Exclusive, mode);
  }

  /** Operations on whole groups exclude each other exactly if one of the groups is, or lies above, one
      of the others. */
  lemma {:induction false} GroupExcludesGroup(scope: string, left: seq<string>, right: seq<string>)
    ensures Conflict(GroupRequests(scope, left, Exclusive), GroupRequests(scope, right, Exclusive))
            <==> SomeWithin(left, right) || SomeWithin(right, left)
  {
    var x, y := GroupRequests(scope, left, Exclusive), GroupRequests(scope, right, Exclusive);
    if SomeWithin(left, right) {
      WithinConflicts(scope, left, right);
    } else if SomeWithin(right, left) {
      WithinConflicts(scope, right, left);
    } else if Conflict(x, y) {
      var key: string :| || (Asks(x, key, Exclusive) && (Asks(y, key, Exclusive) || Asks(y, key, Shared)))
                         || (Asks(y, key, Exclusive) && Asks(x, key, Shared));
      if Asks(x, key, Exclusive) {
        AskedIsWithin(scope, left, right, key, if Asks(y, key, Exclusive) then Exclusive else Shared);
      } else {
        AskedIsWithin(scope, right, left, key, Shared);
      }
    }
  }

  /** Whoever holds the catalog exclusively is alone with it. */
  lemma {:induction false} CatalogExcludesAll(scope: string, groups: seq<string>, repositories: seq<Repository>,
                                              mode: Mode)
    ensures Conflict([CatalogRequest(scope, Exclusive)], GroupRequests(scope, groups, mode))
    ensures Conflict([CatalogRequest(scope, Exclusive)], RepositoryRequests(scope, repositories, mode))
  {
    var key := CatalogRequest(scope, Shared).key;
    AsksSingle(CatalogRequest(scope, Exclusive), key, Exclusive);
    GroupsAsk(scope, groups, mode, key, Shared);
    RepositoriesAsk(scope, repositories, mode, key, Shared);
  }

  lemma {:induction false} LessAfter(prefix: string, left: string, right: string)
    ensures Less(prefix + left, prefix + right) <==> Less(left, right)
  {
    if prefix == "" {
      assert prefix + left == left && prefix + right == right;
    } else {
      LessAfter(prefix[1..], left, right);
      assert (prefix + left)[1..] == prefix[1..] + left && (prefix + right)[1..] == prefix[1..] + right;
    }
  }

  lemma {:induction false} JoinExtends(parts: seq<string>, n: nat) returns (rest: string)
    requires 0 < n < |parts|
    ensures rest != "" && Join(parts) == Join(parts[..n]) + rest
  {
    if n == 1 {
      rest := "/" + Join(parts[1..]);
      assert parts[..1] == [parts[0]];
    } else {
      rest := JoinExtends(parts[1..], n - 1);
      assert parts[..n][1..] == parts[1..][..n - 1];
    }
  }

  /** Locks are taken from the top: the catalog, then groups before the groups below them, then
      repositories. */
  lemma {:induction false} TopDown(scope: string, parts: seq<string>, n: nat, repository: Repository)
    requires 0 < n < |parts|
    ensures Less(CatalogRequest(scope, Shared).key, GroupKey(scope, parts[..n]))
    ensures Less(GroupKey(scope, parts[..n]), GroupKey(scope, parts))
    ensures Less(GroupKey(scope, parts), RepositoryKey(scope, repository))
  {
    assert GroupKey(scope, parts)[0] == '1' && GroupKey(scope, parts[..n])[0] == '1';
    assert RepositoryKey(scope, repository)[0] == '2' && CatalogRequest(scope, Shared).key[0] == '0';
    var rest := JoinExtends(parts, n);
    var upper := GroupKey(scope, parts[..n]);
    assert GroupKey(scope, parts) == upper + rest && upper == upper + "";
    LessAfter(upper, "", rest);
  }

  // ---------------------------------------------------------------------------
  // The loop of the source

  /** groupAncestryRequests. */
  method GroupAncestryRequests(scope: string, group: string, terminal: Mode) returns (requests: seq<Request>)
    ensures requests == Ancestry(scope, group, terminal)
  {
    var parts := Split(group);
    requests := [];
    for index := 0 to |parts|
      invariant requests + AncestryFrom(scope, parts, index, terminal) == Ancestry(scope, group, terminal)
    {
      var mode := if index == |parts| - 1 then terminal else Shared;
      requests := requests + [Request(GroupKey(scope, parts[..index + 1]), mode)];
    }
  }
}
