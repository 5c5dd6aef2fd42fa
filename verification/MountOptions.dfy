/** NFS mount options: parseMountOptions and the option list doNfsMount passes to mount (utils.go). */
module MountOptions {
  import Strings

  const VERS := "vers="

  const VALID_VERSIONS := {"3", "4", "4.0", "4.1", "4.2"}

  predicate IsVers(option: string) {
    VERS <= option
  }

  /** Each entry may itself be a comma-separated list. */
  function Flatten(entries: seq<string>): seq<string> {
    if entries == [] then [] else Strings.Split(entries[0], ',') + Flatten(entries[1..])
  }

  /** The options that are not a version, in order. */
  function Others(options: seq<string>): seq<string> {
    if options == [] then [] else
      var front, last := options[..|options| - 1], options[|options| - 1];
      if IsVers(last) then Others(front) else Others(front) + [last]
  }

  /** The value of the last version option, "" if there is none. */
  function LastVersion(options: seq<string>): string {
    if options == [] then "" else
      var front, last := options[..|options| - 1], options[|options| - 1];
      if IsVers(last) then last[5..] else LastVersion(front)
  }

  function CountVers(options: seq<string>): nat {
    if options == [] then 0 else
      CountVers(options[..|options| - 1]) + if IsVers(options[|options| - 1]) then 1 else 0
  }

  /** `kept` lists, in ascending order, the positions of the options that do not start with "vers=". */
  ghost predicate KeptAt(options: seq<string>, kept: seq<nat>) {
    && (forall j | 0 <= j < |kept| :: kept[j] < |options|)
    && (forall i, j | 0 <= i < j < |kept| :: kept[i] < kept[j])
    && (forall i | 0 <= i < |options| :: i in kept <==> !("vers=" <= options[i]))
  }

  /** Exactly these options are kept, in this order. */
  lemma {:induction false} OthersByIndex(options: seq<string>) returns (kept: seq<nat>)
    ensures KeptAt(options, kept) && |Others(options)| == |kept|
    ensures forall j | 0 <= j < |kept| :: Others(options)[j] == options[kept[j]]
  {
    if options == [] {
      kept := [];
    } else {
      var front := options[..|options| - 1];
      kept := OthersByIndex(front);
      forall i | 0 <= i < |front| ensures i in kept <==> !("vers=" <= options[i]) {
        assert front[i] == options[i];
      }
      if !IsVers(options[|options| - 1]) {
        kept := kept + [|front|];
      }
    }
  }

  /** The version is what the last option that starts with "vers=" says, behind these five characters. */
  lemma {:induction false} LastVersionIs(options: seq<string>)
    ensures (forall i | 0 <= i < |options| :: !("vers=" <= options[i])) ==> LastVersion(options) == ""
    ensures forall i | 0 <= i < |options| && "vers=" <= options[i] && (forall j | i < j < |options| :: !("vers=" <= options[j])) ::
              "vers=" + LastVersion(options) == options[i]
  {
    if options != [] && !IsVers(options[|options| - 1]) {
      var front := options[..|options| - 1];
      LastVersionIs(front);
      assert forall i | 0 <= i < |front| :: front[i] == options[i];
    }
  }

  /** What a request mounts with: in front the version that its last version option names if that is one of
      the five supported ones, else 3, and behind it every other option of the flattened flags, in order. */
  lemma RequestedByIndex(flags: seq<string>) returns (kept: seq<nat>)
    ensures var list := Flatten(flags); var asked := RequestedOptions(flags);
      && KeptAt(list, kept) && |asked| >= 1
      && (forall i | 0 <= i < |list| && "vers=" <= list[i] && (forall j | i < j < |list| :: !("vers=" <= list[j])) ::
            asked[0] == if list[i] in {"vers=3", "vers=4", "vers=4.0", "vers=4.1", "vers=4.2"} then list[i] else "vers=3")
      && ((forall i | 0 <= i < |list| :: !("vers=" <= list[i])) ==> asked[0] == "vers=3")
      && (if |kept| == 1 && list[kept[0]] == "" then |asked| == 1
          else |asked| == |kept| + 1 && forall j | 0 <= j < |kept| :: asked[j + 1] == list[kept[j]])
  {
    hide Flatten, Others, LastVersion;
    var list := Flatten(flags);
    kept := OthersByIndex(list);
    LastVersionIs(list);
    Supported(LastVersion(list));
  }

  lemma Supported(v: string)
    ensures v in VALID_VERSIONS <==> "vers=" + v in {"vers=3", "vers=4", "vers=4.0", "vers=4.1", "vers=4.2"}
  {
    assert ("vers=" + v)[5..] == v;
    assert "vers=" + "3" == "vers=3" && "vers=" + "4" == "vers=4" && "vers=" + "4.0" == "vers=4.0";
    assert "vers=" + "4.1" == "vers=4.1" && "vers=" + "4.2" == "vers=4.2";
  }

  /** Joining the entries and splitting again flattens them. */
  lemma {:induction false} JoinThenSplit(entries: seq<string>)
    requires entries != []
    ensures Strings.Split(Strings.Join(entries, ','), ',') == Flatten(entries)
  {
    if |entries| == 1 {
      assert Flatten(entries[1..]) == [];
    } else {
      JoinThenSplit(entries[1..]);
      Strings.SplitConcat(entries[0], Strings.Join(entries[1..], ','), ',');
    }
  }

  /** For any non-empty list: the version is the last one named, if it is supported, else 3, and the
      other options are kept, flattened and in order. */
  method ParseMountOptions(mntOptions: seq<string>) returns (nfsVers: string, options: string)
    ensures mntOptions == [] ==> nfsVers == "" && options == ""
    ensures mntOptions != [] ==>
              && nfsVers == (var v := LastVersion(Flatten(mntOptions)); if v in VALID_VERSIONS then v else "3")
              && options == Strings.Join(Others(Flatten(mntOptions)), ',')
  {
    if |mntOptions| == 0 {
      return "", "";
    }
    var list := Strings.Split(Strings.Join(mntOptions, ','), ',');
    JoinThenSplit(mntOptions);
    var tmpOptionsList := [];
    nfsVers := "";
    for i := 0 to |list|
      invariant tmpOptionsList == Others(list[..i])
      invariant nfsVers == LastVersion(list[..i])
    {
      assert list[..i + 1][..i] == list[..i];
      if IsVers(list[i]) {
        nfsVers := list[i][5..];
      } else {
        tmpOptionsList := tmpOptionsList + [list[i]];
      }
    }
    assert list[..|list|] == list;
    if nfsVers !in VALID_VERSIONS {
      nfsVers := "3";
    }
    return nfsVers, Strings.Join(tmpOptionsList, ',');
  }

  /** The list handed to mount. */
  function MountOptionList(nfsVers: string, options: string): seq<string> {
    [VERS + nfsVers] + if options != "" then Strings.Split(options, ',') else []
  }

  /** The version a create or publish mounts with: an empty request list means 3 as well. */
  function VersionUsed(parsed: string): string {
    if parsed == "" then "3" else parsed
  }

  lemma {:induction false} OthersHasNoVers(options: seq<string>)
    ensures CountVers(Others(options)) == 0 && Others(Others(options)) == Others(options)
    ensures forall i | 0 <= i < |Others(options)| :: Others(options)[i] in options
  {
    if options != [] {
      var front, last := options[..|options| - 1], options[|options| - 1];
      OthersHasNoVers(front);
      assert forall o | o in front :: o in options;
      if !IsVers(last) {
        assert Others(options)[..|Others(options)| - 1] == Others(front);
      }
    }
  }

  lemma {:induction false} CountConcat(a: seq<string>, b: seq<string>)
    ensures CountVers(a + b) == CountVers(a) + CountVers(b)
  {
    if b == [] {
      assert a + b == a;
    } else {
      CountConcat(a, b[..|b| - 1]);
      assert (a + b)[..|a + b| - 1] == a + b[..|b| - 1];
    }
  }

  lemma {:induction false} FlattenCommaFree(entries: seq<string>)
    ensures Strings.AllFree(Flatten(entries), ',')
  {
    if entries != [] {
      FlattenCommaFree(entries[1..]);
    }
  }

  lemma OthersJoinSplit(entries: seq<string>)
    ensures var o := Others(Flatten(entries)); var s := Strings.Join(o, ',');
      && Strings.Split(s, ',') == (if o == [] then [""] else o)
  {
    var o := Others(Flatten(entries));
    OthersHasNoVers(Flatten(entries));
    FlattenCommaFree(entries);
    forall i | 0 <= i < |o| ensures ',' !in o[i] {
      var k :| 0 <= k < |Flatten(entries)| && Flatten(entries)[k] == o[i];
    }
    if o != [] {
      Strings.SplitJoin(o, ',');
    } else {
      Strings.SplitFree("", ',');
    }
  }

  /** Parsing the option string again leaves it unchanged. */
  lemma ReparseStable(entries: seq<string>)
    ensures var s := Strings.Join(Others(Flatten(entries)), ','); Strings.Join(Others(Flatten([s])), ',') == s
  {
    var o := Others(Flatten(entries));
    var s := Strings.Join(o, ',');
    OthersJoinSplit(entries);
    OthersHasNoVers(Flatten(entries));
    assert Flatten([s]) == Strings.Split(s, ',') by {
      assert [s][1..] == [] && Flatten([]) == [];
    }
    assert o == [] ==> [""][..0] == [] && Others([""]) == [""];
  }

  /** What a create or publish request mounts with carries exactly one version, and a supported one. */
  lemma OneValidVersion(entries: seq<string>, nfsVers: string, options: string)
    requires entries == [] ==> nfsVers == "" && options == ""
    requires entries != [] ==> nfsVers in VALID_VERSIONS && options == Strings.Join(Others(Flatten(entries)), ',')
    ensures VersionUsed(nfsVers) in VALID_VERSIONS
    ensures CountVers(MountOptionList(VersionUsed(nfsVers), options)) == 1
    ensures MountOptionList(VersionUsed(nfsVers), options)[0] == VERS + VersionUsed(nfsVers)
  {
    var first := VERS + VersionUsed(nfsVers);
    CountConcat([first], if options != "" then Strings.Split(options, ',') else []);
    assert [first][..0] == [] && CountVers([first]) == 1;
    if options != "" {
      OthersJoinSplit(entries);
      OthersHasNoVers(Flatten(entries));
    }
  }

  /** The list a create or publish request asks to mount with. */
  function RequestedOptions(flags: seq<string>): seq<string> {
    var kept, v := Others(Flatten(flags)), LastVersion(Flatten(flags));
    [VERS + if v in VALID_VERSIONS then v else "3"] + if kept == [""] then [] else kept
  }

  lemma JoinEmpty(parts: seq<string>)
    requires parts != [] && parts != [""]
    ensures Strings.Join(parts, ',') != ""
  {
  }

  /** What the request asks for is what is mounted: the last supported version named, in front, and
      every other option in order. */
  lemma MountedAsRequested(flags: seq<string>, nfsVers: string, options: string)
    requires flags == [] ==> nfsVers == "" && options == ""
    requires flags != [] ==>
               && nfsVers == (var v := LastVersion(Flatten(flags)); if v in VALID_VERSIONS then v else "3")
               && options == Strings.Join(Others(Flatten(flags)), ',')
    ensures MountOptionList(VersionUsed(nfsVers), options) == RequestedOptions(flags)
    ensures CountVers(RequestedOptions(flags)) == 1
  {
    hide Others, LastVersion, CountVers;
    OneValidVersion(flags, nfsVers, options);
    var kept := Others(Flatten(flags));
    if flags == [] {
      NoOptions();
    } else {
      OthersJoinSplit(flags);
      if kept != [] && kept != [""] {
        JoinEmpty(kept);
      }
    }
  }

  lemma NoOptions()
    ensures Others([]) == [] && LastVersion([]) == ""
  {
  }

  lemma {:induction false} FlattenSnoc(entries: seq<string>, last: string)
    ensures Flatten(entries + [last]) == Flatten(entries) + Strings.Split(last, ',')
  {
    if entries == [] {
      assert [last][1..] == [];
    } else {
      FlattenSnoc(entries[1..], last);
      assert (entries + [last])[1..] == entries[1..] + [last];
    }
  }

  /** A read-only request is mounted read-only. */
  lemma ReadonlyKept(flags: seq<string>)
    ensures "ro" in RequestedOptions(flags + ["ro"])
  {
    FlattenSnoc(flags, "ro");
    Strings.SplitFree("ro", ',');
    var all := Flatten(flags) + ["ro"];
    assert all[..|all| - 1] == Flatten(flags);
    var kept := Others(all);
    assert kept[|kept| - 1] == "ro";
  }

  /** A delete passes the volume's own mount options through unparsed, so its list carries one
      version exactly when none of them is a version. */
  lemma DeleteVersions(entries: seq<string>)
    requires Strings.Join(entries, ',') != ""
    ensures CountVers(MountOptionList("3", Strings.Join(entries, ','))) == 1 + CountVers(Flatten(entries))
  {
    var first := VERS + "3";
    JoinThenSplit(entries);
    CountConcat([first], Flatten(entries));
    assert [first][..0] == [] && CountVers([first]) == 1;
  }
}
