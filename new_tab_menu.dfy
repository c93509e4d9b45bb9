/**
 * The new-tab-menu page of the settings editor: the settings model's menu
 * entries, the view-model entries built from them, and the page's list of
 * entries that the user reorders, deletes from and appends to.
 */
module NewTabMenu {
  import opened Wrappers
  import opened Vectors

  /** A profile of the settings model, known to the menu by its name. */
  datatype SettingsProfile = SettingsProfile(name: string)

  /** The kind of a new-tab-menu entry. */
  datatype EntryType = Invalid | Profile | Separator | Folder | MatchProfiles | RemainingProfiles

  /** An entry of the settings model's new-tab menu. A profile entry may name no profile. */
  datatype ModelEntry =
    | InvalidEntry
    | ProfileEntry(profile: Option<SettingsProfile>)
    | SeparatorEntry
    | FolderEntry(name: string, rawEntries: seq<ModelEntry>)
    | MatchProfilesEntry(name: string, commandline: string, source: string)
    | RemainingProfilesEntry

  function ModelType(e: ModelEntry): EntryType
  {
    match e
    case InvalidEntry => Invalid
    case ProfileEntry(_) => Profile
    case SeparatorEntry => Separator
    case FolderEntry(_, _) => Folder
    case MatchProfilesEntry(_, _, _) => MatchProfiles
    case RemainingProfilesEntry => RemainingProfiles
  }

  /**
   * A view-model entry: it wraps the model entry it was made from, and a folder
   * also holds the view models of its children. An entry of the Invalid kind
   * wraps nothing.
   */
  datatype EntryViewModel =
    | ProfileEntryViewModel(profileEntry: ModelEntry)
    | SeparatorEntryViewModel(separatorEntry: ModelEntry)
    | FolderEntryViewModel(folderEntry: ModelEntry, entries: seq<EntryViewModel>)
    | MatchProfilesEntryViewModel(matchProfilesEntry: ModelEntry)
    | RemainingProfilesEntryViewModel(remainingProfilesEntry: ModelEntry)
    | InvalidEntryViewModel

  function Type(vm: EntryViewModel): EntryType
  {
    match vm
    case ProfileEntryViewModel(_) => Profile
    case SeparatorEntryViewModel(_) => Separator
    case FolderEntryViewModel(_, _) => Folder
    case MatchProfilesEntryViewModel(_) => MatchProfiles
    case RemainingProfilesEntryViewModel(_) => RemainingProfiles
    case InvalidEntryViewModel => Invalid
  }

  /** The settings-model entry a view model wraps; None for the Invalid kind. */
  function GetModel(vm: EntryViewModel): (m: Option<ModelEntry>)
    ensures m.None? <==> Type(vm) == Invalid
  {
    match vm
    case ProfileEntryViewModel(e) => Some(e)
    case SeparatorEntryViewModel(e) => Some(e)
    case FolderEntryViewModel(e, _) => Some(e)
    case MatchProfilesEntryViewModel(e) => Some(e)
    case RemainingProfilesEntryViewModel(e) => Some(e)
    case InvalidEntryViewModel => None
  }

  // ------------------------------------------------------------- conversion

  /** The model entries the conversion keeps: all but Invalid ones and profile entries without a profile. */
  predicate Keeps(e: ModelEntry)
  {
    !e.InvalidEntry? && !(e.ProfileEntry? && e.profile.None?)
  }

  /** The kept model entries, in order. */
  function Kept(es: seq<ModelEntry>): (r: seq<ModelEntry>)
    ensures |r| <= |es|
    ensures forall k :: 0 <= k < |r| ==> Keeps(r[k])
  {
    if es == [] then []
    else Kept(es[..|es| - 1]) + (if Keeps(es[|es| - 1]) then [es[|es| - 1]] else [])
  }

  /**
   * The view models of a list of model entries, in order: Invalid entries and
   * profile entries without a profile are skipped, and a folder's view model
   * holds the conversion of the folder's own entries.
   */
  function ConvertEntries(es: seq<ModelEntry>): seq<EntryViewModel>
    decreases es
  {
    if es == [] then []
    else
      var e := es[|es| - 1];
      ConvertEntries(es[..|es| - 1]) +
      match e
      case InvalidEntry => []
      case ProfileEntry(p) => if p.Some? then [ProfileEntryViewModel(e)] else []
      case SeparatorEntry => [SeparatorEntryViewModel(e)]
      case FolderEntry(_, raw) => [FolderEntryViewModel(e, ConvertEntries(raw))]
      case MatchProfilesEntry(_, _, _) => [MatchProfilesEntryViewModel(e)]
      case RemainingProfilesEntry => [RemainingProfilesEntryViewModel(e)]
  }

  /**
   * Converting keeps exactly the kept entries, in their order: reading the model
   * back out of each view model gives the kept model entries, every view model
   * has its model entry's kind, and a folder's children are the conversion of
   * its own entries.
   */
  lemma {:induction false} ConvertEntriesKeepsModels(es: seq<ModelEntry>)
    ensures |ConvertEntries(es)| == |Kept(es)|
    ensures forall k :: 0 <= k < |Kept(es)| ==>
      GetModel(ConvertEntries(es)[k]) == Some(Kept(es)[k]) &&
      Type(ConvertEntries(es)[k]) == ModelType(Kept(es)[k])
    ensures forall k :: 0 <= k < |Kept(es)| && Kept(es)[k].FolderEntry? ==>
      ConvertEntries(es)[k].FolderEntryViewModel? &&
      ConvertEntries(es)[k].entries == ConvertEntries(Kept(es)[k].rawEntries)
    decreases es
  {
    if es != [] {
      ConvertEntriesKeepsModels(es[..|es| - 1]);
    }
  }

  /** Converts the model entries with a loop of appends, recursing into folders. */
  method ConvertToViewModelEntries(es: seq<ModelEntry>) returns (result: seq<EntryViewModel>)
    ensures result == ConvertEntries(es)
    decreases es
  {
    result := [];
    for i := 0 to |es|
      invariant result == ConvertEntries(es[..i])
    {
      var e := es[i];
      assert es[..i + 1][..i] == es[..i];
      match e {
        case InvalidEntry =>
        case ProfileEntry(p) =>
          if p.Some? {
            result := result + [ProfileEntryViewModel(e)];
          }
        case SeparatorEntry =>
          result := result + [SeparatorEntryViewModel(e)];
        case FolderEntry(_, raw) =>
          var children := ConvertToViewModelEntries(raw);
          result := result + [FolderEntryViewModel(e, children)];
        case MatchProfilesEntry(_, _, _) =>
          result := result + [MatchProfilesEntryViewModel(e)];
        case RemainingProfilesEntry =>
          result := result + [RemainingProfilesEntryViewModel(e)];
      }
    }
    assert es[..|es|] == es;
  }

  // ---------------------------------------------- remaining-profiles search

  /**
   * True when no RemainingProfiles entry occurs in the list, looking inside
   * folders; the search stops at the first one it finds.
   */
  function IsRemainingProfilesEntryMissing(es: seq<EntryViewModel>): bool
    decreases es
  {
    if es == [] then true
    else match es[0]
      case RemainingProfilesEntryViewModel(_) => false
      case FolderEntryViewModel(_, children) =>
        if !IsRemainingProfilesEntryMissing(children) then false
        else IsRemainingProfilesEntryMissing(es[1..])
      case _ => IsRemainingProfilesEntryMissing(es[1..])
  }

  /**
   * path leads to a RemainingProfiles entry: every index but the last picks a
   * folder to descend into, and the last picks the entry.
   */
  predicate RemainingAt(es: seq<EntryViewModel>, path: seq<nat>)
    decreases path
  {
    |path| > 0 && path[0] < |es| &&
    if |path| == 1 then es[path[0]].RemainingProfilesEntryViewModel?
    else es[path[0]].FolderEntryViewModel? && RemainingAt(es[path[0]].entries, path[1..])
  }

  /** A path into the tail of a list is a path into the list, one index further on. */
  lemma RemainingAtTail(es: seq<EntryViewModel>, path: seq<nat>)
    requires es != [] && RemainingAt(es[1..], path)
    ensures RemainingAt(es, [path[0] + 1] + path[1..])
  {
    var p: seq<nat> := [path[0] + 1] + path[1..];
    assert p[1..] == path[1..];
    assert es[p[0]] == es[1..][path[0]];
  }

  /** A path into the first entry's children is a path into the list through that folder. */
  lemma RemainingAtFolder(es: seq<EntryViewModel>, path: seq<nat>)
    requires es != [] && es[0].FolderEntryViewModel? && RemainingAt(es[0].entries, path)
    ensures RemainingAt(es, [0] + path)
  {
    var p: seq<nat> := [0] + path;
    assert p[0] == 0 && |p| > 1;
    assert p[1..] == path;
  }

  /** A path into a list that does not start at its first entry is a path into its tail. */
  lemma RemainingAtUntail(es: seq<EntryViewModel>, path: seq<nat>)
    requires RemainingAt(es, path) && path[0] > 0
    ensures RemainingAt(es[1..], [path[0] - 1] + path[1..])
  {
    var p: seq<nat> := [path[0] - 1] + path[1..];
    assert p[1..] == path[1..];
    assert es[1..][p[0]] == es[path[0]];
  }

  /** When the search finds an entry, a path leads to it. */
  lemma {:induction false} FoundHasPath(es: seq<EntryViewModel>) returns (path: seq<nat>)
    requires !IsRemainingProfilesEntryMissing(es)
    ensures RemainingAt(es, path)
    decreases es
  {
    if es[0].RemainingProfilesEntryViewModel? {
      path := [0];
    } else if es[0].FolderEntryViewModel? && !IsRemainingProfilesEntryMissing(es[0].entries) {
      var sub := FoundHasPath(es[0].entries);
      RemainingAtFolder(es, sub);
      path := [0] + sub;
    } else {
      var sub := FoundHasPath(es[1..]);
      RemainingAtTail(es, sub);
      path := [sub[0] + 1] + sub[1..];
    }
  }

  /** When the search reports the entry missing, no path leads to one. */
  lemma {:induction false} MissingHasNoPath(es: seq<EntryViewModel>, path: seq<nat>)
    requires IsRemainingProfilesEntryMissing(es)
    ensures !RemainingAt(es, path)
    decreases es
  {
    if RemainingAt(es, path) {
      if path[0] == 0 {
        if |path| > 1 {
          MissingHasNoPath(es[0].entries, path[1..]);
        }
      } else {
        RemainingAtUntail(es, path);
        MissingHasNoPath(es[1..], [path[0] - 1] + path[1..]);
      }
    }
  }

  /** The search reports a missing entry exactly when no path leads to a RemainingProfiles entry. */
  lemma MissingIffNoPath(es: seq<EntryViewModel>)
    ensures IsRemainingProfilesEntryMissing(es) <==> !exists path: seq<nat> :: RemainingAt(es, path)
  {
    if IsRemainingProfilesEntryMissing(es) {
      forall path ensures !RemainingAt(es, path) {
        MissingHasNoPath(es, path);
      }
    } else {
      var path := FoundHasPath(es);
      assert RemainingAt(es, path);
      assert exists p: seq<nat> :: RemainingAt(es, p);
      assert !IsRemainingProfilesEntryMissing(es);
    }
  }

  // --------------------------------------------------- match-profiles label

  /** size_t arithmetic: an unsigned 64-bit value wraps around modulo 2^64. */
  function SizeT(x: int): nat
  {
    x % 0x1_0000_0000_0000_0000
  }

  /** substr(0, count): at most count leading characters; a count past the end takes the whole string. */
  function Substr(s: string, count: nat): (r: string)
    ensures r <= s && |r| == if count < |s| then count else |s|
  {
    if count < |s| then s[..count] else s
  }

  /** What the text stream receives for one field: "profile: <field>, ", or nothing for an empty field. */
  function Piece(field: string): string
  {
    if field == [] then [] else "profile: " + field + ", "
  }

  /**
   * The label of a match-profiles entry: the pieces for its name, command line
   * and source, with the last two characters chopped off. The count is computed
   * in size_t, so with no piece at all it wraps and substr keeps the whole,
   * empty, string.
   */
  function DisplayText(m: ModelEntry): string
    requires m.MatchProfilesEntry?
  {
    var s := Piece(m.name) + Piece(m.commandline) + Piece(m.source);
    Substr(s, SizeT(|s| - 2))
  }

  /** The label of one field: "profile: <field>", or none for an empty field. */
  function Label(field: string): seq<string>
  {
    if field == [] then [] else ["profile: " + field]
  }

  /** The labels of the non-empty fields, in the order name, command line, source. */
  function Labels(m: ModelEntry): seq<string>
    requires m.MatchProfilesEntry?
  {
    Label(m.name) + Label(m.commandline) + Label(m.source)
  }

  /** The parts separated by ", ", with no separator after the last one. */
  function Join(parts: seq<string>): string
  {
    if parts == [] then []
    else if |parts| == 1 then parts[0]
    else parts[0] + ", " + Join(parts[1..])
  }

  /** Every part followed by ", ": what the stream holds before the chop. */
  function Terminated(parts: seq<string>): string
  {
    if parts == [] then [] else parts[0] + ", " + Terminated(parts[1..])
  }

  lemma {:induction false} TerminatedIsJoin(parts: seq<string>)
    requires parts != []
    ensures Terminated(parts) == Join(parts) + ", "
    decreases |parts|
  {
    if |parts| == 1 {
      assert Terminated(parts[1..]) == [];
    } else {
      TerminatedIsJoin(parts[1..]);
    }
  }

  lemma {:induction false} TerminatedAppend(a: seq<string>, b: seq<string>)
    ensures Terminated(a + b) == Terminated(a) + Terminated(b)
    decreases |a|
  {
    if a != [] {
      assert (a + b)[1..] == a[1..] + b;
      TerminatedAppend(a[1..], b);
      calc {
        Terminated(a + b);
        (a + b)[0] + ", " + Terminated((a + b)[1..]);
        a[0] + ", " + (Terminated(a[1..]) + Terminated(b));
        (a[0] + ", " + Terminated(a[1..])) + Terminated(b);
      }
    } else {
      assert a + b == b;
    }
  }

  lemma PieceIsTerminated(field: string)
    ensures Piece(field) == Terminated(Label(field))
  {
    if field != [] {
      assert Terminated(Label(field)[1..]) == [];
    }
  }

  /** What the stream holds before the chop: every label of the three fields followed by ", ". */
  lemma {:induction false} PiecesAreTerminated(x: string, y: string, z: string)
    ensures Piece(x) + Piece(y) + Piece(z) == Terminated(Label(x) + Label(y) + Label(z))
  {
    PieceIsTerminated(x);
    PieceIsTerminated(y);
    PieceIsTerminated(z);
    TerminatedAppend(Label(x), Label(y));
    TerminatedAppend(Label(x) + Label(y), Label(z));
  }

  /**
   * The label is the labels of the non-empty fields joined by ", ", with no
   * trailing separator; with every field empty it is empty.
   */
  lemma DisplayTextIsJoin(m: ModelEntry)
    requires m.MatchProfilesEntry?
    requires |m.name| + |m.commandline| + |m.source| + 33 < 0x1_0000_0000_0000_0000
    ensures DisplayText(m) == Join(Labels(m))
    ensures m.name == [] && m.commandline == [] && m.source == [] ==> DisplayText(m) == []
  {
    var s := Piece(m.name) + Piece(m.commandline) + Piece(m.source);
    PiecesAreTerminated(m.name, m.commandline, m.source);
    if Labels(m) != [] {
      TerminatedIsJoin(Labels(m));
      assert |s| <= |m.name| + |m.commandline| + |m.source| + 33;
      assert SizeT(|s| - 2) == |s| - 2;
      assert s[..|s| - 2] == Join(Labels(m));
    } else {
      assert s == [];
    }
  }

  // ------------------------------------------------------------- reordering

  /** The list after moving vm one place up or down; unchanged when vm is absent or already at that end. */
  function Reordered<T(==)>(s: seq<T>, vm: T, goingUp: bool): seq<T>
  {
    match IndexOf(s, vm)
    case None => s
    case Some(i) =>
      if goingUp && i > 0 then InsertAt(RemoveAt(s, i), i - 1, vm)
      else if !goingUp && i < |s| - 1 then InsertAt(RemoveAt(s, i), i + 1, vm)
      else s
  }

  /**
   * Moving an entry up swaps it with its predecessor and moving it down swaps it
   * with its successor; every other position keeps its entry. When the entry is
   * absent, first and going up, or last and going down, nothing changes.
   */
  lemma ReorderedSwaps<T>(s: seq<T>, vm: T, goingUp: bool)
    ensures vm !in s ==> Reordered(s, vm, goingUp) == s
    ensures vm in s ==>
      var i := IndexOf(s, vm).value;
      Reordered(s, vm, goingUp) ==
        if goingUp && i > 0 then s[i - 1 := s[i]][i := s[i - 1]]
        else if !goingUp && i < |s| - 1 then s[i := s[i + 1]][i + 1 := s[i]]
        else s
  {
    var found := IndexOf(s, vm);
    if found.Some? {
      var i := found.value;
      if goingUp && i > 0 {
        MoveUpSwaps(s, i);
      } else if !goingUp && i < |s| - 1 {
        MoveDownSwaps(s, i);
      }
    }
  }

  /** Reordering never changes the length of the list or which entries it holds. */
  lemma ReorderedPermutes<T>(s: seq<T>, vm: T, goingUp: bool)
    ensures |Reordered(s, vm, goingUp)| == |s|
    ensures multiset(Reordered(s, vm, goingUp)) == multiset(s)
  {
    var found := IndexOf(s, vm);
    if found.Some? {
      var i := found.value;
      if (goingUp && i > 0) || (!goingUp && i < |s| - 1) {
        var j := if goingUp then i - 1 else i + 1;
        var rest := RemoveAt(s, i);
        assert Reordered(s, vm, goingUp) == InsertAt(rest, j, vm);
        RemoveAtMultiset(s, i);
        InsertAtMultiset(rest, j, vm);
      }
    }
  }

  // ---------------------------------------------------------- the page

  /** The new-tab-menu page: its entry list and the input fields of its add buttons. */
  class NewTabMenuViewModel {
    var entries: seq<EntryViewModel>
    var selectedProfile: Option<SettingsProfile>
    var folderName: string
    var profileMatcherName: string
    var profileMatcherSource: string
    var profileMatcherCommandline: string

    /** Builds the page from the settings' menu; the first available profile is selected. */
    constructor (newTabMenu: seq<ModelEntry>, availableProfiles: seq<SettingsProfile>)
      requires |availableProfiles| > 0
      ensures entries == ConvertEntries(newTabMenu)
      ensures selectedProfile == Some(availableProfiles[0])
      ensures folderName == [] && profileMatcherName == [] && profileMatcherSource == [] && profileMatcherCommandline == []
    {
      var converted := ConvertToViewModelEntries(newTabMenu);
      selectedProfile := Some(availableProfiles[0]);
      folderName, profileMatcherName, profileMatcherSource, profileMatcherCommandline := [], [], [], [];
      entries := converted;
    }

    /** Moves vm one place up or down in the list. */
    method RequestReorderEntry(vm: EntryViewModel, goingUp: bool)
      modifies this`entries
      ensures entries == Reordered(old(entries), vm, goingUp)
    {
      var idx := IndexOf(entries, vm);
      if idx.Some? {
        var i := idx.value;
        if goingUp && i > 0 {
          entries := InsertAt(RemoveAt(entries, i), i - 1, vm);
        } else if !goingUp && i < |entries| - 1 {
          entries := InsertAt(RemoveAt(entries, i), i + 1, vm);
        }
      }
    }

    /** Removes the first occurrence of vm from the list. */
    method RequestDeleteEntry(vm: EntryViewModel)
      modifies this`entries
      ensures entries == RemoveFirst(old(entries), vm)
    {
      var idx := IndexOf(entries, vm);
      if idx.Some? {
        entries := RemoveAt(entries, idx.value);
      }
    }

    /** Appends an entry for the selected profile; nothing when no profile is selected. */
    method RequestAddSelectedProfileEntry()
      modifies this`entries
      ensures old(selectedProfile).Some? ==>
        entries == old(entries) + [ProfileEntryViewModel(ProfileEntry(selectedProfile))]
      ensures old(selectedProfile).None? ==> entries == old(entries)
    {
      if selectedProfile.Some? {
        entries := entries + [ProfileEntryViewModel(ProfileEntry(selectedProfile))];
      }
    }

    method RequestAddSeparatorEntry()
      modifies this`entries
      ensures entries == old(entries) + [SeparatorEntryViewModel(SeparatorEntry)]
    {
      entries := entries + [SeparatorEntryViewModel(SeparatorEntry)];
    }

    /** Appends an empty folder named after the folder-name field, then clears the field. */
    method RequestAddFolderEntry()
      modifies this`entries, this`folderName
      ensures entries == old(entries) + [FolderEntryViewModel(FolderEntry(old(folderName), []), [])]
      ensures folderName == []
    {
      var folder := FolderEntry(folderName, []);
      var children := ConvertToViewModelEntries(folder.rawEntries);
      entries := entries + [FolderEntryViewModel(folder, children)];
      folderName := [];
    }

    /** Appends a match-profiles entry built from the three matcher fields, then clears them. */
    method RequestAddProfileMatcherEntry()
      modifies this`entries, this`profileMatcherName, this`profileMatcherSource, this`profileMatcherCommandline
      ensures entries == old(entries) +
        [MatchProfilesEntryViewModel(MatchProfilesEntry(old(profileMatcherName), old(profileMatcherCommandline), old(profileMatcherSource)))]
      ensures profileMatcherName == [] && profileMatcherSource == [] && profileMatcherCommandline == []
    {
      var matcher := MatchProfilesEntry(profileMatcherName, profileMatcherCommandline, profileMatcherSource);
      entries := entries + [MatchProfilesEntryViewModel(matcher)];
      profileMatcherName, profileMatcherSource, profileMatcherCommandline := [], [], [];
    }

    method RequestAddRemainingProfilesEntry()
      modifies this`entries
      ensures entries == old(entries) + [RemainingProfilesEntryViewModel(RemainingProfilesEntry)]
    {
      entries := entries + [RemainingProfilesEntryViewModel(RemainingProfilesEntry)];
    }
  }

  /** After adding a RemainingProfiles entry, the page no longer reports one missing. */
  lemma AddedRemainingIsFound(s: seq<EntryViewModel>)
    ensures !IsRemainingProfilesEntryMissing(s + [RemainingProfilesEntryViewModel(RemainingProfilesEntry)])
  {
    var t := s + [RemainingProfilesEntryViewModel(RemainingProfilesEntry)];
    var p: seq<nat> := [|s|];
    assert RemainingAt(t, p);
    assert exists q: seq<nat> :: RemainingAt(t, q);
    MissingIffNoPath(t);
  }
}
