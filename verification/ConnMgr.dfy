/** The connection manager of src/upnp_connmgr.c: registering MIME types, filtering them at
    start-up, and announcing what is left. */
module ConnMgr {
  import opened Wrappers
  import opened MimeTypes

  class ConnectionManager {
    var supportedTypes: seq<string>
    var sinkProtocolInfo: string

    constructor (initialInfo: string)
      ensures supportedTypes == [] && sinkProtocolInfo == initialInfo
    {
      supportedTypes, sinkProtocolInfo := [], initialInfo;
    }

    method AddMimeType(mimeType: string) returns (added: bool)
      requires Sorted(supportedTypes)
      modifies this`supportedTypes
      ensures Sorted(supportedTypes)
      ensures forall x :: x in supportedTypes <==> x == mimeType || x in old(supportedTypes)
      ensures added <==> mimeType !in old(supportedTypes)
    {
      if mimeType in supportedTypes {
        return false;
      }
      InsertKeepsSorted(supportedTypes, mimeType);
      supportedTypes := InsertSorted(supportedTypes, mimeType);
      added := true;
    }

    method RemoveMimeType(mimeType: string) returns (removed: bool)
      requires Sorted(supportedTypes)
      modifies this`supportedTypes
      ensures Sorted(supportedTypes)
      ensures forall x :: x in supportedTypes <==> x != mimeType && x in old(supportedTypes)
      ensures removed <==> mimeType in old(supportedTypes)
    {
      removed := mimeType in supportedTypes;
      if removed {
        var i :| 0 <= i < |supportedTypes| && supportedTypes[i] == mimeType;
        DeleteLink(supportedTypes, i);
        supportedTypes := supportedTypes[..i] + supportedTypes[i + 1..];
      }
    }

    method RegisterMimeType(mimeType: string)
      requires Sorted(supportedTypes)
      modifies this`supportedTypes
      ensures Sorted(supportedTypes)
      ensures forall x :: x in supportedTypes <==>
        || x == mimeType || x in old(supportedTypes)
        || (mimeType == "audio/mpeg" && x in {"audio/x-mpeg", "audio/x-scpls", "audio/L16;rate=44100;channels=2"})
        || (mimeType == "audio/x-alac" && x == "audio/alac")
        || (mimeType == "audio/x-aiff" && x == "audio/aiff")
        || (mimeType == "audio/x-m4a" && x in {"audio/m4a", "audio/mp4"})
      decreases if mimeType == "audio/mpeg" then 1 else 0
    {
      hide Sorted;
      var _ := AddMimeType(mimeType);
      if mimeType == "audio/mpeg" {
        var _ := AddMimeType("audio/x-mpeg");
        var _ := AddMimeType("audio/x-scpls");
        LinearIsNoAlias();
        RegisterMimeType("audio/L16;rate=44100;channels=2");
      }
      if mimeType == "audio/x-alac" {
        var _ := AddMimeType("audio/alac");
      }
      if mimeType == "audio/x-aiff" {
        var _ := AddMimeType("audio/aiff");
      }
      if mimeType == "audio/x-m4a" {
        var _ := AddMimeType("audio/m4a");
        var _ := AddMimeType("audio/mp4");
      }
    }

    /** Deletes the links of types that no root is compatible with. */
    method FilterMimeTypeRoot(filter: Filter)
      requires Sorted(supportedTypes)
      modifies this`supportedTypes
      ensures Sorted(supportedTypes)
      ensures forall x :: x in supportedTypes <==>
        x in old(supportedTypes) && (filter.allowedRoots == [] || HasRoot(filter.allowedRoots, x))
    {
      if filter.allowedRoots == [] {
        return;
      }
      var entry := 0;
      while entry < |supportedTypes|
        invariant 0 <= entry <= |supportedTypes| && Sorted(supportedTypes)
        invariant forall x :: x in supportedTypes ==> x in old(supportedTypes)
        invariant forall x :: x in old(supportedTypes) && HasRoot(filter.allowedRoots, x) ==> x in supportedTypes
        invariant forall k :: 0 <= k < entry ==> HasRoot(filter.allowedRoots, supportedTypes[k])
        decreases |supportedTypes| - entry
      {
        hide Sorted, HasRoot;
        var found := FindRoot(filter.allowedRoots, supportedTypes[entry]);
        if found {
          entry := entry + 1;
        } else {
          DeleteLink(supportedTypes, entry);
          supportedTypes := supportedTypes[..entry] + supportedTypes[entry + 1..];
        }
      }
    }

    method AddAll(types: seq<string>)
      requires Sorted(supportedTypes)
      modifies this`supportedTypes
      ensures Sorted(supportedTypes)
      ensures forall x :: x in supportedTypes <==> x in types || x in old(supportedTypes)
    {
      for i := 0 to |types|
        invariant Sorted(supportedTypes)
        invariant forall x :: x in supportedTypes <==> x in types[..i] || x in old(supportedTypes)
      {
        hide Sorted;
        var _ := AddMimeType(types[i]);
        assert types[..i + 1] == types[..i] + [types[i]];
      }
      assert types[..|types|] == types;
    }

    method RemoveAll(types: seq<string>)
      requires Sorted(supportedTypes)
      modifies this`supportedTypes
      ensures Sorted(supportedTypes)
      ensures forall x :: x in supportedTypes <==> x !in types && x in old(supportedTypes)
    {
      for i := 0 to |types|
        invariant Sorted(supportedTypes)
        invariant forall x :: x in supportedTypes <==> x !in types[..i] && x in old(supportedTypes)
      {
        hide Sorted;
        var _ := RemoveMimeType(types[i]);
        assert types[..i + 1] == types[..i] + [types[i]];
      }
      assert types[..|types|] == types;
    }

    /** The start-up: filter, add, remove, announce. */
    method Init(mimeFilterString: Option<string>)
      requires Sorted(supportedTypes)
      modifies this
      ensures Sorted(supportedTypes)
      ensures var tokens := if mimeFilterString.None? then [] else Tokens(mimeFilterString.value);
        forall x :: x in supportedTypes <==> Advertises(old(supportedTypes), tokens, x)
      ensures sinkProtocolInfo == if supportedTypes == [] then old(sinkProtocolInfo) else ProtocolInfo(supportedTypes)
    {
      hide Sorted, Tokens, Allowed, HasRoot;
      var filter := ParseMimeFilterString(mimeFilterString);
      ghost var tokens := if mimeFilterString.None? then [] else Tokens(mimeFilterString.value);
      RootTokens(filter, tokens);
      FilterMimeTypeRoot(filter);
      AddAll(filter.addedTypes);
      RemoveAll(filter.removedTypes);
      Announce();
    }

    method Announce()
      modifies this`sinkProtocolInfo
      ensures sinkProtocolInfo == if supportedTypes == [] then old(sinkProtocolInfo) else ProtocolInfo(supportedTypes)
    {
      var protoInfo := "";
      for entry := 0 to |supportedTypes|
        invariant protoInfo == Terminated(supportedTypes[..entry])
      {
        assert supportedTypes[..entry + 1][..entry] == supportedTypes[..entry];
        protoInfo := protoInfo + Entry(supportedTypes[entry]) + ",";
      }
      assert supportedTypes[..|supportedTypes|] == supportedTypes;
      if supportedTypes != [] {
        CutComma(supportedTypes);
      }
      if |protoInfo| > 0 {
        sinkProtocolInfo := protoInfo[..|protoInfo| - 1];
      }
    }
  }

  lemma RootTokens(filter: Filter, tokens: seq<string>)
    requires Holds(filter, tokens)
    ensures forall x :: Allowed(tokens, x) <==> filter.allowedRoots == [] || HasRoot(filter.allowedRoots, x)
  {
    HeadIsIn(filter.allowedRoots);
  }

  /** The text with every entry terminated by a comma. */
  function Terminated(list: seq<string>): string {
    if list == [] then [] else Terminated(list[..|list| - 1]) + Entry(list[|list| - 1]) + ","
  }

  lemma {:induction false} TerminatedConcat(a: seq<string>, b: seq<string>)
    ensures Terminated(a + b) == Terminated(a) + Terminated(b)
  {
    hide Entry;
    if b == [] {
      assert a + b == a;
    } else {
      assert (a + b)[..|a + b| - 1] == a + b[..|b| - 1];
      TerminatedConcat(a, b[..|b| - 1]);
    }
  }

  /** Cutting the final comma gives the joined text. */
  lemma {:induction false} CutComma(list: seq<string>)
    requires list != []
    ensures Terminated(list) == ProtocolInfo(list) + ","
  {
    hide Entry;
    if |list| == 1 {
      assert list[..0] == [];
    } else {
      CutComma(list[1..]);
      assert list == [list[0]] + list[1..];
      TerminatedConcat([list[0]], list[1..]);
      assert [list[0]][..0] == [];
    }
  }

  lemma LinearIsNoAlias()
    ensures "audio/L16;rate=44100;channels=2" !in {"audio/mpeg", "audio/x-alac", "audio/x-aiff", "audio/x-m4a"}
  {
    var linear := "audio/L16;rate=44100;channels=2";
    assert linear[6] == 'L' && "audio/mpeg"[6] == 'm';
    assert "audio/x-alac"[6] == "audio/x-aiff"[6] == "audio/x-m4a"[6] == 'x';
  }

  /** Taking one element out of a sorted list. */
  lemma DeleteLink(list: seq<string>, i: nat)
    requires Sorted(list) && i < |list|
    ensures Sorted(list[..i] + list[i + 1..])
    ensures forall x :: x in list[..i] + list[i + 1..] <==> x in list && x != list[i]
  {
    LessIrreflexive(list[i]);
    assert list == list[..i] + [list[i]] + list[i + 1..];
  }

  /** g_slist_find_custom with g_compare_mime_root. */
  method FindRoot(roots: seq<string>, mimeType: string) returns (found: bool)
    ensures found <==> HasRoot(roots, mimeType)
  {
    var i := 0;
    while i < |roots|
      invariant 0 <= i <= |roots|
      invariant forall k :: 0 <= k < i ==> !Compatible(roots[k], mimeType)
    {
      CompareIsCompatible(roots[i], mimeType);
      if CompareRoot(roots[i], mimeType) {
        return true;
      }
      i := i + 1;
    }
    found := false;
  }

  /** The token in hand and all tokens behind it. */
  function Remaining(token: Option<(string, string)>): seq<string> {
    match token
    case None => []
    case Some((text, rest)) => [text] + Tokens(rest)
  }

  lemma TokensRemain(s: string)
    ensures Tokens(s) == Remaining(NextToken(s))
  {
    hide NextToken;
  }

  lemma OneTokenOn(done: seq<string>, text: string, rest: string)
    ensures done + Remaining(Some((text, rest))) == (done + [text]) + Remaining(NextToken(rest))
  {
    hide NextToken, Tokens;
    TokensRemain(rest);
  }

  /** The strtok_r loop over the filter string. */
  method ParseMimeFilterString(filterString: Option<string>) returns (filter: Filter)
    ensures Holds(filter, if filterString.None? then [] else Tokens(filterString.value))
  {
    hide NextToken, Tokens, Remaining;
    filter := Filter([], [], []);
    if filterString == None {
      return;
    }
    ghost var done: seq<string> := [];
    var token := NextToken(filterString.value);
    TokensRemain(filterString.value);
    while token != None
      invariant Holds(filter, done)
      invariant token.Some? ==> token.value.0 != []
      invariant Tokens(filterString.value) == done + Remaining(token)
      decreases if token.Some? then |token.value.1| + 1 else 0
    {
      hide Holds;
      ParsedHolds(filter, done, token.value.0);
      OneTokenOn(done, token.value.0, token.value.1);
      filter := Parsed(filter, token.value.0);
      done := done + [token.value.0];
      token := NextToken(token.value.1);
    }
    NothingRemains(done);
  }

  lemma NothingRemains(done: seq<string>)
    ensures done + Remaining(None) == done
  {
  }
}
