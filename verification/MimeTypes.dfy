/** The MIME types of src/upnp_connmgr.c: a list kept sorted by strcmp, the filter string, and the
    protocol information made of the list. */
module MimeTypes {
  import opened Wrappers

  // ---------------------------------------------------------------- the order of strcmp

  predicate Less(a: string, b: string) {
    if b == [] then false
    else if a == [] then true
    else if a[0] != b[0] then a[0] < b[0]
    else Less(a[1..], b[1..])
  }

  lemma {:induction false} LessIrreflexive(a: string)
    ensures !Less(a, a)
  {
    if a != [] {
      LessIrreflexive(a[1..]);
    }
  }

  lemma {:induction false} LessTransitive(a: string, b: string, c: string)
    requires Less(a, b) && Less(b, c)
    ensures Less(a, c)
  {
    if a != [] && a[0] == b[0] == c[0] {
      LessTransitive(a[1..], b[1..], c[1..]);
    }
  }

  lemma {:induction false} LessTotal(a: string, b: string)
    ensures a == b || Less(a, b) || Less(b, a)
  {
    if a != [] && b != [] && a[0] == b[0] {
      LessTotal(a[1..], b[1..]);
      assert a == [a[0]] + a[1..] && b == [b[0]] + b[1..];
    }
  }

  /** Equal up to there, and then a ends or has the smaller character. */
  predicate LessAt(a: string, b: string, k: nat) {
    k <= |a| && k < |b| && a[..k] == b[..k] && (k == |a| || a[k] < b[k])
  }

  /** The order of strcmp: a proper beginning comes first, else the characters decide where they
      first differ. */
  lemma {:induction false} LessIff(a: string, b: string)
    ensures Less(a, b) <==> exists k: nat :: LessAt(a, b, k)
  {
    if b == [] {
    } else if a == [] {
      assert LessAt(a, b, 0);
    } else if a[0] != b[0] {
      assert LessAt(a, b, 0) <==> a[0] < b[0];
      forall k: nat | k > 0
        ensures !LessAt(a, b, k)
      {
        assert k <= |a| && k <= |b| ==> a[..k][0] == a[0] && b[..k][0] == b[0];
      }
    } else {
      LessIff(a[1..], b[1..]);
      forall k: nat
        ensures LessAt(a[1..], b[1..], k) <==> LessAt(a, b, k + 1)
      {
        OneCharOn(a, b, k);
      }
      if k: nat :| LessAt(a, b, k) {
        assert k > 0 && LessAt(a[1..], b[1..], k - 1);
      }
    }
  }

  lemma OneCharOn(a: string, b: string, k: nat)
    requires a != [] && b != [] && a[0] == b[0]
    ensures LessAt(a[1..], b[1..], k) <==> LessAt(a, b, k + 1)
  {
    if k + 1 <= |a| && k + 1 <= |b| {
      assert a[..k + 1] == [a[0]] + a[1..][..k] && b[..k + 1] == [b[0]] + b[1..][..k];
      assert a[1..][..k] == a[..k + 1][1..] && b[1..][..k] == b[..k + 1][1..];
    }
  }

  /** Strictly ascending, hence without duplicates. */
  ghost predicate Sorted(list: seq<string>) {
    forall i, j :: 0 <= i < j < |list| ==> Less(list[i], list[j])
  }

  lemma HeadIsIn(list: seq<string>)
    ensures list != [] ==> list[0] in list
  {
  }

  /** A sorted list is determined by its elements. */
  lemma {:induction false} SortedUnique(a: seq<string>, b: seq<string>)
    requires Sorted(a) && Sorted(b) && forall x :: x in a <==> x in b
    ensures a == b
    decreases |a|
  {
    if a == [] {
      HeadIsIn(b);
    } else {
      assert a[0] in a && a[0] in b;
      SameFirst(a, b);
      forall x
        ensures x in a[1..] <==> x in b[1..]
      {
        NotAgain(a, x);
        NotAgain(b, x);
      }
      SortedUnique(a[1..], b[1..]);
      assert a == [a[0]] + a[1..] && b == [b[0]] + b[1..];
    }
  }

  lemma SameFirst(a: seq<string>, b: seq<string>)
    requires Sorted(a) && Sorted(b) && a != [] && b != [] && a[0] in b && b[0] in a
    ensures a[0] == b[0]
  {
    hide Less;
    if a[0] != b[0] {
      var i :| 0 <= i < |b| && b[i] == a[0];
      var j :| 0 <= j < |a| && a[j] == b[0];
      LessTransitive(a[0], b[0], a[0]);
      LessIrreflexive(a[0]);
    }
  }

  lemma NotAgain(a: seq<string>, x: string)
    requires Sorted(a) && a != []
    ensures x in a[1..] <==> x in a && x != a[0]
  {
    LessIrreflexive(a[0]);
    assert a == [a[0]] + a[1..];
    assert forall i :: 0 < i < |a| ==> a[i] != a[0];
  }

  /** g_slist_insert_sorted for an element that is not there yet. */
  function InsertSorted(list: seq<string>, x: string): seq<string> {
    if list == [] || Less(x, list[0]) then [x] + list else [list[0]] + InsertSorted(list[1..], x)
  }

  lemma {:induction false} InsertKeepsSorted(list: seq<string>, x: string)
    requires Sorted(list) && x !in list
    ensures Sorted(InsertSorted(list, x))
    ensures forall y :: y in InsertSorted(list, x) <==> y == x || y in list
  {
    hide Less;
    if list == [] || Less(x, list[0]) {
      forall k | 0 <= k < |list|
        ensures Less(x, list[k])
      {
        if k > 0 {
          LessTransitive(x, list[0], list[k]);
        }
      }
    } else {
      var rest := InsertSorted(list[1..], x);
      assert list == [list[0]] + list[1..];
      InsertKeepsSorted(list[1..], x);
      LessTotal(x, list[0]);
      forall k | 0 <= k < |rest|
        ensures Less(list[0], rest[k])
      {
        assert rest[k] in rest;
      }
    }
  }

  // ---------------------------------------------------------------- roots

  predicate IsPrefix(a: string, b: string) {
    a <= b
  }

  /** Equal up to the length of the shorter one. */
  predicate Compatible(a: string, b: string) {
    IsPrefix(a, b) || IsPrefix(b, a)
  }

  /** strncmp over the shorter length. */
  predicate CompareRoot(a: string, b: string) {
    var min := if |a| < |b| then |a| else |b|;
    a[..min] == b[..min]
  }

  lemma CompareIsCompatible(a: string, b: string)
    ensures CompareRoot(a, b) <==> Compatible(a, b)
  {
    if |a| < |b| {
      assert a[..|a|] == a;
    } else {
      assert b[..|b|] == b;
    }
  }

  // ---------------------------------------------------------------- the filter string

  /** Position of the first separator, or the length. */
  function Upto(s: string, c: char): (k: nat)
    ensures k <= |s| && c !in s[..k] && (k < |s| ==> s[k] == c)
  {
    if s == [] || s[0] == c then 0 else
      var k := Upto(s[1..], c) + 1;
      assert s[..k] == [s[0]] + s[1..][..k - 1];
      k
  }

  function SkipCommas(s: string): (r: string)
    ensures |r| <= |s| && (r != [] ==> r[0] != ',')
  {
    if s != [] && s[0] == ',' then SkipCommas(s[1..]) else s
  }

  /** strtok_r with a comma: the next token and what is left behind it. */
  function NextToken(s: string): (r: Option<(string, string)>)
    ensures r.Some? ==> r.value.0 != [] && |r.value.1| < |s|
  {
    var text := SkipCommas(s);
    if text == [] then None else
      var k := Upto(text, ',');
      Some((text[..k], if k < |text| then text[k + 1..] else []))
  }

  function Tokens(s: string): seq<string>
    decreases |s|
  {
    match NextToken(s)
    case None => []
    case Some((token, rest)) => [token] + Tokens(rest)
  }

  /** The pieces between separators, empty ones included. */
  function Split(s: string, c: char): (r: seq<string>)
    ensures r != []
    decreases |s|
  {
    var k := Upto(s, c);
    if k == |s| then [s] else [s[..k]] + Split(s[k + 1..], c)
  }

  function WithoutEmpty(pieces: seq<string>): seq<string> {
    if pieces == [] then [] else (if pieces[0] == [] then [] else [pieces[0]]) + WithoutEmpty(pieces[1..])
  }

  lemma CommaSkipped(s: string)
    requires s != [] && s[0] == ','
    ensures Tokens(s) == Tokens(s[1..])
  {
  }

  lemma TokenTaken(s: string, k: nat)
    requires s != [] && s[0] != ',' && k == Upto(s, ',')
    ensures Tokens(s) == [s[..k]] + if k < |s| then Tokens(s[k + 1..]) else []
  {
    TokenInFront(s, k);
    hide NextToken;
    assert Tokens(s) == [s[..k]] + Tokens(if k < |s| then s[k + 1..] else []);
    NoTokens();
  }

  lemma TokenInFront(s: string, k: nat)
    requires s != [] && s[0] != ',' && k == Upto(s, ',')
    ensures NextToken(s) == Some((s[..k], if k < |s| then s[k + 1..] else []))
  {
    hide Upto;
    assert SkipCommas(s) == s;
  }

  lemma PieceSkipped(rest: seq<string>)
    ensures WithoutEmpty([[]] + rest) == WithoutEmpty(rest)
  {
    assert ([[]] + rest)[1..] == rest;
  }

  lemma PieceKept(piece: string, rest: seq<string>)
    requires piece != []
    ensures WithoutEmpty([piece] + rest) == [piece] + WithoutEmpty(rest)
  {
    assert ([piece] + rest)[1..] == rest;
  }

  /** strtok_r yields the non-empty pieces between commas. */
  lemma {:induction false} TokensAreSplit(s: string)
    ensures Tokens(s) == WithoutEmpty(Split(s, ','))
    decreases |s|
  {
    hide Tokens, WithoutEmpty;
    var k := Upto(s, ',');
    if s == [] {
      NoTokens();
      PieceSkipped([]);
      assert Split(s, ',') == [[]] + [];
    } else if s[0] == ',' {
      CommaSkipped(s);
      TokensAreSplit(s[1..]);
      PieceSkipped(Split(s[1..], ','));
      assert s[..0] == [];
    } else {
      TokenTaken(s, k);
      if k == |s| {
        PieceKept(s, []);
        NoTokens();
        assert s[..k] == s && [s] + [] == [s];
      } else {
        TokensAreSplit(s[k + 1..]);
        PieceKept(s[..k], Split(s[k + 1..], ','));
      }
    }
  }

  lemma NoTokens()
    ensures Tokens([]) == [] && WithoutEmpty([]) == []
  {
  }

  /** The three lists of a parsed filter, in the order of the prepends. */
  datatype Filter = Filter(allowedRoots: seq<string>, addedTypes: seq<string>, removedTypes: seq<string>)

  predicate IsRoot(token: string) {
    token != [] && token[0] != '+' && token[0] != '-'
  }

  /** What a filter holds when it was made of these tokens, in any order. */
  ghost predicate Holds(f: Filter, tokens: seq<string>) {
    && (forall x :: x in f.allowedRoots <==> IsRoot(x) && x in tokens)
    && (forall x :: x in f.addedTypes <==> ['+'] + x in tokens)
    && (forall x :: x in f.removedTypes <==> ['-'] + x in tokens)
  }

  function Parsed(f: Filter, token: string): Filter
    requires token != []
  {
    if token[0] == '+' then f.(addedTypes := [token[1..]] + f.addedTypes)
    else if token[0] == '-' then f.(removedTypes := [token[1..]] + f.removedTypes)
    else f.(allowedRoots := [token] + f.allowedRoots)
  }

  lemma SignedToken(token: string, sign: char, x: string)
    requires token != []
    ensures [sign] + x == token <==> token[0] == sign && x == token[1..]
  {
    if token[0] == sign && x == token[1..] {
      assert [sign] + x == token;
    }
  }

  lemma ParsedHolds(f: Filter, tokens: seq<string>, token: string)
    requires Holds(f, tokens) && token != []
    ensures Holds(Parsed(f, token), tokens + [token])
  {
    forall x
      ensures ['+'] + x == token <==> token[0] == '+' && x == token[1..]
      ensures ['-'] + x == token <==> token[0] == '-' && x == token[1..]
    {
      SignedToken(token, '+', x);
      SignedToken(token, '-', x);
    }
  }

  // ---------------------------------------------------------------- what is advertised

  predicate HasRoot(roots: seq<string>, x: string) {
    exists root <- roots :: Compatible(root, x)
  }

  ghost predicate Allowed(tokens: seq<string>, x: string) {
    (forall root <- tokens :: !IsRoot(root)) || exists root <- tokens :: IsRoot(root) && Compatible(root, x)
  }

  /** Registered and compatible with some root, if there are roots, or added; and not removed. */
  ghost predicate Advertises(registered: seq<string>, tokens: seq<string>, x: string) {
    ((x in registered && Allowed(tokens, x)) || ['+'] + x in tokens) && ['-'] + x !in tokens
  }

  /** The advertised list depends on the set of registered types and the set of tokens only. */
  lemma AdvertisedListIsUnique(r1: seq<string>, s1: string, l1: seq<string>,
                               r2: seq<string>, s2: string, l2: seq<string>)
    requires Sorted(l1) && forall x :: x in l1 <==> Advertises(r1, Tokens(s1), x)
    requires Sorted(l2) && forall x :: x in l2 <==> Advertises(r2, Tokens(s2), x)
    requires (forall x :: x in r1 <==> x in r2) && (forall t :: t in Tokens(s1) <==> t in Tokens(s2))
    ensures l1 == l2
  {
    hide Tokens;
    forall x
      ensures Advertises(r1, Tokens(s1), x) <==> Advertises(r2, Tokens(s2), x)
    {
    }
    SortedUnique(l1, l2);
  }

  // ---------------------------------------------------------------- protocol information

  function Entry(mimeType: string): string {
    "http-get:*:" + mimeType + ":*"
  }

  function Entries(list: seq<string>): seq<string> {
    if list == [] then [] else [Entry(list[0])] + Entries(list[1..])
  }

  /** Entries joined by commas. */
  function ProtocolInfo(list: seq<string>): string
    requires list != []
  {
    if |list| == 1 then Entry(list[0]) else Entry(list[0]) + "," + ProtocolInfo(list[1..])
  }

  ghost predicate NoCommas(list: seq<string>) {
    forall x <- list :: ',' !in x
  }

  lemma {:induction false} SeparatorAt(front: string, c: char, rest: string)
    requires c !in front
    ensures Upto(front + [c] + rest, c) == |front|
  {
    var s := front + [c] + rest;
    if front == [] {
      assert s[0] == c;
    } else {
      assert s[1..] == front[1..] + [c] + rest;
      SeparatorAt(front[1..], c, rest);
      assert s[0] == front[0];
    }
  }

  lemma {:induction false} NoSeparator(s: string, c: char)
    requires c !in s
    ensures Upto(s, c) == |s|
  {
    if s != [] {
      NoSeparator(s[1..], c);
    }
  }

  lemma EntryCommas(x: string)
    ensures ',' in Entry(x) <==> ',' in x
  {
  }

  lemma {:induction false} SplitInfo(list: seq<string>)
    requires list != [] && NoCommas(list)
    ensures Split(ProtocolInfo(list), ',') == Entries(list)
  {
    hide Entry, Upto;
    EntryCommas(list[0]);
    if |list| == 1 {
      NoSeparator(Entry(list[0]), ',');
      assert Entries(list[1..]) == [];
    } else {
      var s := ProtocolInfo(list);
      SplitInfo(list[1..]);
      SeparatorAt(Entry(list[0]), ',', ProtocolInfo(list[1..]));
      assert s[|Entry(list[0])| + 1..] == ProtocolInfo(list[1..]) && s[..|Entry(list[0])|] == Entry(list[0]);
    }
  }

  lemma {:induction false} PiecesHaveNone(s: string, c: char)
    ensures forall p <- Split(s, c) :: c !in p
    decreases |s|
  {
    var k := Upto(s, c);
    if k < |s| {
      PiecesHaveNone(s[k + 1..], c);
    } else {
      assert s[..k] == s;
    }
  }

  lemma {:induction false} EntriesAt(list: seq<string>, i: nat)
    requires i < |list|
    ensures |Entries(list)| == |list| && Entries(list)[i] == Entry(list[i])
  {
    hide Entry;
    if |list| > 1 {
      EntriesAt(list[1..], if i > 0 then i - 1 else 0);
    }
  }

  /** Splitting the protocol information at its commas recovers the list exactly if no type
      contains a comma. */
  lemma SplitRecoversIff(list: seq<string>)
    requires list != []
    ensures Split(ProtocolInfo(list), ',') == Entries(list) <==> NoCommas(list)
  {
    hide Entry, Split, Entries, ProtocolInfo;
    if NoCommas(list) {
      SplitInfo(list);
    } else {
      var x :| x in list && ',' in x;
      var i :| 0 <= i < |list| && list[i] == x;
      EntryCommas(x);
      EntriesAt(list, i);
      PiecesHaveNone(ProtocolInfo(list), ',');
    }
  }

  // ---------------------------------------------------------------- the types read back

  lemma SplitInTwo(front: string, c: char, rest: string)
    requires c !in front
    ensures Split(front + [c] + rest, c) == [front] + Split(rest, c)
  {
    var s := front + [c] + rest;
    SeparatorAt(front, c, rest);
    assert s[..|front|] == front && s[|front| + 1..] == rest;
  }

  lemma SplitAlone(s: string, c: char)
    requires c !in s
    ensures Split(s, c) == [s]
  {
    NoSeparator(s, c);
  }

  /** An entry has four fields between colons: the protocol, any network, the type, anything more. */
  lemma EntryFields(x: string)
    requires ':' !in x
    ensures Split(Entry(x), ':') == ["http-get", "*", x, "*"]
  {
    hide Split;
    var last := "*";
    SplitAlone(last, ':');
    SplitInTwo(x, ':', last);
    SplitInTwo("*", ':', x + [':'] + last);
    SplitInTwo("http-get", ':', "*" + [':'] + (x + [':'] + last));
    assert Entry(x) == "http-get" + [':'] + ("*" + [':'] + (x + [':'] + last));
  }

  /** What a controller takes for the type of an entry. */
  function TypeField(piece: string): string {
    var fields := Split(piece, ':');
    if |fields| > 2 then fields[2] else ""
  }

  function TypeFields(pieces: seq<string>): seq<string> {
    if pieces == [] then [] else [TypeField(pieces[0])] + TypeFields(pieces[1..])
  }

  lemma {:induction false} EntriesReadBack(list: seq<string>)
    requires forall x <- list :: ':' !in x
    ensures TypeFields(Entries(list)) == list
  {
    hide Entry, TypeField;
    if list != [] {
      EntriesReadBack(list[1..]);
      TypeIsRead(list[0]);
      assert Entries(list)[1..] == Entries(list[1..]);
    }
  }

  lemma TypeIsRead(x: string)
    requires ':' !in x
    ensures TypeField(Entry(x)) == x
  {
    EntryFields(x);
  }

  lemma {:induction false} PiecesArePart(s: string, c: char)
    ensures forall p <- Split(s, c), d <- p :: d in s
    decreases |s|
  {
    var k := Upto(s, c);
    if k < |s| {
      PiecesArePart(s[k + 1..], c);
    }
  }

  lemma TypeFieldHasNone(piece: string)
    requires ',' !in piece
    ensures ',' !in TypeField(piece) && ':' !in TypeField(piece)
  {
    PiecesHaveNone(piece, ':');
    PiecesArePart(piece, ':');
  }

  lemma {:induction false} TypeFieldsHaveNone(pieces: seq<string>)
    requires forall p <- pieces :: ',' !in p
    ensures forall x <- TypeFields(pieces) :: ',' !in x && ':' !in x
  {
    hide TypeField;
    if pieces != [] {
      TypeFieldHasNone(pieces[0]);
      TypeFieldsHaveNone(pieces[1..]);
    }
  }

  /** A controller that splits the protocol information at commas and each piece at colons, and takes
      the third field, gets the list of types exactly if no type contains a comma or a colon. */
  lemma TypesReadBackIff(list: seq<string>)
    requires list != []
    ensures TypeFields(Split(ProtocolInfo(list), ',')) == list <==> forall x <- list :: ',' !in x && ':' !in x
  {
    hide Split, Entry, Entries, ProtocolInfo, TypeField;
    var pieces := Split(ProtocolInfo(list), ',');
    PiecesHaveNone(ProtocolInfo(list), ',');
    TypeFieldsHaveNone(pieces);
    if forall x <- list :: ',' !in x && ':' !in x {
      SplitInfo(list);
      EntriesReadBack(list);
    }
  }

  lemma {:induction false} WithoutEmptyIsPart(pieces: seq<string>)
    ensures forall p <- WithoutEmpty(pieces) :: p in pieces
  {
    if pieces != [] {
      WithoutEmptyIsPart(pieces[1..]);
    }
  }

  /** That is the case whenever no registered type contains one: a filter cannot bring one in. */
  lemma AdvertisedNoCommas(registered: seq<string>, s: string, list: seq<string>)
    requires NoCommas(registered) && forall x <- list :: Advertises(registered, Tokens(s), x)
    ensures NoCommas(list)
  {
    hide Split, Tokens, WithoutEmpty, Allowed;
    TokensAreSplit(s);
    PiecesHaveNone(s, ',');
    WithoutEmptyIsPart(Split(s, ','));
    forall x <- list
      ensures ',' !in x
    {
      assert x in registered || ['+'] + x in Tokens(s);
      assert ',' in x ==> ',' in ['+'] + x;
    }
  }
}
