/** Quota-aware selection of evidence files: classify, order by priority, take greedily under the cap. */
module Quota {
  import opened Options

  /** A file as the policy sees it; every string is lower-cased except the path it is ordered by. */
  datatype File = File(path: string, lowerPath: string, name: string, extension: string, root: string, size: nat)

  datatype Policy = Policy(
    quota: int, reserve: int, runCap: int, fileCap: int, csvCap: int,
    allowedExtensions: seq<string>, deniedExtensions: seq<string>, deniedPathTokens: seq<string>,
    deniedNameTokens: seq<string>, allowedNameTokens: seq<string>, binaryTokens: seq<string>,
    criticalTokens: seq<string>, standardTokens: seq<string>, requireProfile: bool)

  datatype Profile = Profile(prefixes: seq<string>, deniedTokens: seq<string>, allowedTokens: seq<string>)

  /** What looking up the profile of a workflow gives. */
  datatype Workflow = NoWorkflow | NotConfigured | UnknownProfile | Configured(profile: Profile)

  /** The bounds a policy is loaded with. */
  predicate Loaded(p: Policy) {
    && p.quota > 0 && 0 <= p.reserve < p.quota
    && 0 < p.runCap <= p.quota - p.reserve
    && 0 < p.fileCap <= p.runCap
    && 0 < p.csvCap <= p.fileCap
  }

  // ------------------------------------------------------------ classification

  predicate Contains(text: string, token: string) {
    |token| <= |text| && (token <= text || (text != "" && Contains(text[1..], token)))
  }

  predicate AnyIn(tokens: seq<string>, text: string) {
    exists token :: token in tokens && Contains(text, token)
  }

  predicate Critical(p: Policy, f: File) {
    AnyIn(p.criticalTokens, f.name)
  }

  function Priority(p: Policy, f: File): nat {
    if Critical(p, f) then 0 else if AnyIn(p.standardTokens, f.name) then 1 else 2
  }

  datatype Reason =
    | DeniedExtension | DeniedPath | DeniedFilename | ExtensionNotAllowed | FilenameNotEvidence | FileSizeLimit
    | CsvSizeLimit | BinaryNotReleaseArtifact | FamilyNotAllowed | WorkflowDeniedFilename | WorkflowFilenameNotAllowed
    | PerRunCapDropped

  /** Why the general policy rejects a file; `None` when it keeps it. */
  function Rejects(p: Policy, f: File): (r: Option<Reason>)
    ensures r != Some(PerRunCapDropped)
  {
    if f.extension in p.deniedExtensions then Some(DeniedExtension)
    else if AnyIn(p.deniedPathTokens, f.lowerPath) then Some(DeniedPath)
    else if AnyIn(p.deniedNameTokens, f.name) then Some(DeniedFilename)
    else if f.extension !in p.allowedExtensions then Some(ExtensionNotAllowed)
    else if f.extension in {".json", ".md", ".txt", ".csv"} && p.allowedNameTokens != []
      && !AnyIn(p.allowedNameTokens, f.name)
    then Some(FilenameNotEvidence)
    else if f.size > p.fileCap then Some(FileSizeLimit)
    else if f.extension == ".csv" && f.size > p.csvCap then Some(CsvSizeLimit)
    else if f.extension in {".mq5", ".ex5"} && !AnyIn(p.binaryTokens, f.lowerPath) then Some(BinaryNotReleaseArtifact)
    else None
  }

  function WorkflowRejects(profile: Profile, f: File): (r: Option<Reason>)
    ensures r != Some(PerRunCapDropped)
  {
    if !exists prefix :: prefix in profile.prefixes && prefix <= f.root then Some(FamilyNotAllowed)
    else if AnyIn(profile.deniedTokens, f.name) then Some(WorkflowDeniedFilename)
    else if profile.allowedTokens != [] && !AnyIn(profile.allowedTokens, f.name) then Some(WorkflowFilenameNotAllowed)
    else None
  }

  /** A workflow keeps a file the policy finds unlike evidence if the workflow names it. */
  predicate Overrides(p: Policy, w: Workflow, f: File) {
    && w.Configured? && w.profile.allowedTokens != []
    && AnyIn(w.profile.allowedTokens, f.name)
    && Rejects(p, f) == Some(FilenameNotEvidence)
  }

  function Verdict(p: Policy, w: Workflow, f: File): (r: Option<Reason>)
    ensures r != Some(PerRunCapDropped)
  {
    if w.Configured? && WorkflowRejects(w.profile, f).Some? then WorkflowRejects(w.profile, f)
    else if Overrides(p, w, f) then None
    else Rejects(p, f)
  }

  predicate Accepts(p: Policy, w: Workflow, f: File) {
    Verdict(p, w, f).None?
  }

  function Accepted(p: Policy, w: Workflow, files: seq<File>): seq<File> {
    if files == [] then []
    else Accepted(p, w, files[..|files| - 1]) + if Accepts(p, w, files[|files| - 1]) then [files[|files| - 1]] else []
  }

  lemma {:induction false} AcceptedExactly(p: Policy, w: Workflow, files: seq<File>, f: File)
    ensures f in Accepted(p, w, files) <==> f in files && Accepts(p, w, f)
  {
    if files != [] { AcceptedExactly(p, w, files[..|files| - 1], f); }
  }

  // ------------------------------------------------- what is accepted, in tokens alone

  predicate OccursAt(token: string, text: string, i: int) {
    0 <= i && i + |token| <= |text| && text[i..i + |token|] == token
  }

  /** `token` stands somewhere in `text`. */
  ghost predicate Occurs(token: string, text: string) {
    exists i :: OccursAt(token, text, i)
  }

  lemma OccursHereOrLater(text: string, token: string)
    requires text != ""
    ensures Occurs(token, text) <==> token <= text || Occurs(token, text[1..])
  {
    if i :| OccursAt(token, text, i) {
      if i > 0 { assert OccursAt(token, text[1..], i - 1); }
    }
    if i :| OccursAt(token, text[1..], i) { assert OccursAt(token, text, i + 1); }
    if token <= text { assert OccursAt(token, text, 0); }
  }

  lemma {:induction false} ContainsExactly(text: string, token: string)
    ensures Contains(text, token) <==> Occurs(token, text)
  {
    if text != "" {
      OccursHereOrLater(text, token);
      ContainsExactly(text[1..], token);
    } else {
      assert OccursAt(token, text, 0) <==> token == "";
    }
  }

  ghost predicate SomeOccurs(tokens: seq<string>, text: string) {
    exists token :: token in tokens && Occurs(token, text)
  }

  lemma AnyInExactly(tokens: seq<string>, text: string)
    ensures AnyIn(tokens, text) <==> SomeOccurs(tokens, text)
  {
    forall token ensures Contains(text, token) <==> Occurs(token, text) { ContainsExactly(text, token); }
  }

  predicate IsText(extension: string) {
    extension == ".json" || extension == ".md" || extension == ".txt" || extension == ".csv"
  }

  predicate IsBinary(extension: string) {
    extension == ".mq5" || extension == ".ex5"
  }

  /** Nothing about the place, the name or the kind of the file is denied. */
  ghost predicate NotDenied(p: Policy, f: File) {
    && f.extension !in p.deniedExtensions && f.extension in p.allowedExtensions
    && !SomeOccurs(p.deniedPathTokens, f.lowerPath) && !SomeOccurs(p.deniedNameTokens, f.name)
  }

  /** A text file whose name is not among those of evidence. */
  ghost predicate UnlikeEvidence(p: Policy, f: File) {
    IsText(f.extension) && p.allowedNameTokens != [] && !SomeOccurs(p.allowedNameTokens, f.name)
  }

  ghost predicate WithinSizes(p: Policy, f: File) {
    f.size <= p.fileCap && (f.extension == ".csv" ==> f.size <= p.csvCap)
  }

  /** The policy keeps a file exactly if nothing about it is denied, a text file is like evidence, the sizes are kept
      and a binary is named as a release. */
  lemma KeepsExactly(p: Policy, f: File)
    ensures Rejects(p, f).None? <==>
              && NotDenied(p, f) && !UnlikeEvidence(p, f) && WithinSizes(p, f)
              && (IsBinary(f.extension) ==> SomeOccurs(p.binaryTokens, f.lowerPath))
    ensures Rejects(p, f) == Some(FilenameNotEvidence) <==> NotDenied(p, f) && UnlikeEvidence(p, f)
  {
    AnyInExactly(p.deniedPathTokens, f.lowerPath);
    AnyInExactly(p.deniedNameTokens, f.name);
    AnyInExactly(p.allowedNameTokens, f.name);
    AnyInExactly(p.binaryTokens, f.lowerPath);
  }

  /** Each reason for an exclusion is true of the file. */
  ghost predicate ReasonHolds(p: Policy, w: Workflow, f: File, reason: Reason) {
    match reason
    case DeniedExtension => f.extension in p.deniedExtensions
    case DeniedPath => SomeOccurs(p.deniedPathTokens, f.lowerPath)
    case DeniedFilename => SomeOccurs(p.deniedNameTokens, f.name)
    case ExtensionNotAllowed => f.extension !in p.allowedExtensions
    case FilenameNotEvidence => UnlikeEvidence(p, f)
    case FileSizeLimit => f.size > p.fileCap
    case CsvSizeLimit => f.extension == ".csv" && f.size > p.csvCap
    case BinaryNotReleaseArtifact => IsBinary(f.extension) && !SomeOccurs(p.binaryTokens, f.lowerPath)
    case FamilyNotAllowed => w.Configured? && !exists prefix :: prefix in w.profile.prefixes && prefix <= f.root
    case WorkflowDeniedFilename => w.Configured? && SomeOccurs(w.profile.deniedTokens, f.name)
    case WorkflowFilenameNotAllowed =>
      w.Configured? && w.profile.allowedTokens != [] && !SomeOccurs(w.profile.allowedTokens, f.name)
    case PerRunCapDropped => true
  }

  lemma PolicyReasonHolds(p: Policy, w: Workflow, f: File)
    ensures Rejects(p, f).Some? ==> ReasonHolds(p, w, f, Rejects(p, f).value)
  {
    AnyInExactly(p.deniedPathTokens, f.lowerPath);
    AnyInExactly(p.deniedNameTokens, f.name);
    AnyInExactly(p.allowedNameTokens, f.name);
    AnyInExactly(p.binaryTokens, f.lowerPath);
  }

  /** Every file that is not accepted is excluded for a reason that holds. */
  lemma ReasonIsTrue(p: Policy, w: Workflow, f: File)
    ensures Verdict(p, w, f).Some? ==> ReasonHolds(p, w, f, Verdict(p, w, f).value)
  {
    PolicyReasonHolds(p, w, f);
    if w.Configured? {
      AnyInExactly(w.profile.deniedTokens, f.name);
      AnyInExactly(w.profile.allowedTokens, f.name);
    }
  }

  /** The workflow, if it is configured, allows the family and the name of the file. */
  ghost predicate WorkflowAllows(w: Workflow, f: File) {
    w.Configured? ==>
      && (exists prefix :: prefix in w.profile.prefixes && prefix <= f.root)
      && !SomeOccurs(w.profile.deniedTokens, f.name)
      && (w.profile.allowedTokens != [] ==> SomeOccurs(w.profile.allowedTokens, f.name))
  }

  /** A file is accepted exactly when its workflow allows it and either the policy keeps it or it is only unlike
      evidence and the workflow names it. */
  lemma AcceptsExactly(p: Policy, w: Workflow, f: File)
    ensures Accepts(p, w, f) <==>
              && WorkflowAllows(w, f) && NotDenied(p, f)
              && if UnlikeEvidence(p, f) then w.Configured? && SomeOccurs(w.profile.allowedTokens, f.name)
                 else WithinSizes(p, f) && (IsBinary(f.extension) ==> SomeOccurs(p.binaryTokens, f.lowerPath))
  {
    KeepsExactly(p, f);
    if w.Configured? {
      AnyInExactly(w.profile.deniedTokens, f.name);
      AnyInExactly(w.profile.allowedTokens, f.name);
    }
  }

  /** Evidence named as critical comes first, named as standard second, and the rest last. */
  lemma PriorityExactly(p: Policy, f: File)
    ensures Priority(p, f) == 0 <==> SomeOccurs(p.criticalTokens, f.name)
    ensures Priority(p, f) == 1 <==> !SomeOccurs(p.criticalTokens, f.name) && SomeOccurs(p.standardTokens, f.name)
    ensures Priority(p, f) <= 2
  {
    AnyInExactly(p.criticalTokens, f.name);
    AnyInExactly(p.standardTokens, f.name);
  }

  // ---------------------------------------------------------------- the order

  predicate PathLeq(a: string, b: string) {
    a == "" || (b != "" && (a[0] < b[0] || (a[0] == b[0] && PathLeq(a[1..], b[1..]))))
  }

  lemma {:induction false} PathOrder(a: string, b: string, c: string)
    ensures PathLeq(a, b) || PathLeq(b, a)
    ensures PathLeq(a, b) && PathLeq(b, a) ==> a == b
    ensures PathLeq(a, b) && PathLeq(b, c) ==> PathLeq(a, c)
  {
    if a != "" && b != "" {
      PathOrder(a[1..], b[1..], if c == "" then "" else c[1..]);
      if a[0] == b[0] && a[1..] == b[1..] { assert a == [a[0]] + a[1..] && b == [b[0]] + b[1..]; }
    }
  }

  /** Most important first, then largest first, then by path. */
  predicate Leq(p: Policy, a: File, b: File) {
    || Priority(p, a) < Priority(p, b)
    || (Priority(p, a) == Priority(p, b) && (a.size > b.size || (a.size == b.size && PathLeq(a.path, b.path))))
  }

  lemma LeqOrder(p: Policy, a: File, b: File, c: File)
    ensures Leq(p, a, b) || Leq(p, b, a)
    ensures Leq(p, a, b) && Leq(p, b, a) ==> a.path == b.path
    ensures Leq(p, a, b) && Leq(p, b, c) ==> Leq(p, a, c)
  {
    PathOrder(a.path, b.path, c.path);
  }

  /** The first difference of two paths. */
  predicate DifferAt(a: string, b: string, i: int) {
    0 <= i < |a| && i < |b| && a[..i] == b[..i] && a[i] < b[i]
  }

  /** One path is a prefix of the other, or smaller at the first difference. */
  lemma {:induction false} PathLeqExactly(a: string, b: string)
    ensures PathLeq(a, b) <==> a <= b || exists i :: DifferAt(a, b, i)
  {
    if a != "" && b != "" {
      PathLeqExactly(a[1..], b[1..]);
      if a[0] < b[0] {
        assert DifferAt(a, b, 0);
      } else if a[0] == b[0] {
        SameStart(a, b);
      }
    }
  }

  lemma SameStart(a: string, b: string)
    requires a != "" && b != "" && a[0] == b[0]
    ensures a <= b <==> a[1..] <= b[1..]
    ensures (exists i :: DifferAt(a, b, i)) <==> exists i :: DifferAt(a[1..], b[1..], i)
  {
    assert a == [a[0]] + a[1..] && b == [b[0]] + b[1..];
    if i :| DifferAt(a, b, i) {
      assert a[1..][..i - 1] == a[..i][1..] && b[1..][..i - 1] == b[..i][1..];
      assert DifferAt(a[1..], b[1..], i - 1);
    }
    if i :| DifferAt(a[1..], b[1..], i) {
      assert a[..i + 1] == [a[0]] + a[1..][..i] && b[..i + 1] == [b[0]] + b[1..][..i];
      assert DifferAt(a, b, i + 1);
    }
  }

  /** Whatever is considered earlier is of higher priority, or else larger, or else first by path. */
  lemma OrderedExactly(p: Policy, files: seq<File>, i: nat, j: nat)
    requires i < j < |Ordered(p, files)|
    ensures var a, b := Ordered(p, files)[i], Ordered(p, files)[j];
            && Priority(p, a) <= Priority(p, b)
            && (Priority(p, a) == Priority(p, b) ==> a.size >= b.size)
            && (Priority(p, a) == Priority(p, b) && a.size == b.size ==>
                  a.path <= b.path || exists k :: DifferAt(a.path, b.path, k))
  {
    var a, b := Ordered(p, files)[i], Ordered(p, files)[j];
    assert Leq(p, a, b);
    PathLeqExactly(a.path, b.path);
  }

  predicate Sorted(p: Policy, files: seq<File>) {
    forall i, j :: 0 <= i < j < |files| ==> Leq(p, files[i], files[j])
  }

  lemma SortedSnoc(p: Policy, files: seq<File>, f: File)
    requires Sorted(p, files) && (files == [] || Leq(p, files[|files| - 1], f))
    ensures Sorted(p, files + [f])
  {
    forall i | 0 <= i < |files| ensures Leq(p, files[i], f) {
      LeqOrder(p, files[i], files[|files| - 1], f);
    }
  }

  function Insert(p: Policy, f: File, files: seq<File>): (r: seq<File>)
    requires Sorted(p, files)
    ensures Sorted(p, r) && r != [] && (r[|r| - 1] == f || (files != [] && r[|r| - 1] == files[|files| - 1]))
  {
    if files == [] then [f]
    else
      var init, last := files[..|files| - 1], files[|files| - 1];
      LeqOrder(p, f, last, f);
      if Leq(p, last, f) then
        SortedSnoc(p, files, f);
        files + [f]
      else
        SortedSnoc(p, Insert(p, f, init), last);
        Insert(p, f, init) + [last]
  }

  /** The accepted files in the order they are considered. */
  function Ordered(p: Policy, files: seq<File>): (r: seq<File>)
    ensures Sorted(p, r)
  {
    if files == [] then [] else Insert(p, files[|files| - 1], Ordered(p, files[..|files| - 1]))
  }

  // ------------------------------------------------------------- how often a file occurs

  function Copies(files: seq<File>, f: File): nat {
    if files == [] then 0 else Copies(files[..|files| - 1], f) + if files[|files| - 1] == f then 1 else 0
  }

  /** The two lists hold the same files, each as often. */
  ghost predicate SameFiles(a: seq<File>, b: seq<File>) {
    forall f :: Copies(a, f) == Copies(b, f)
  }

  /** Every file of the list is in exactly one of the two parts. */
  ghost predicate Partition(a: seq<File>, b: seq<File>, files: seq<File>) {
    forall f :: Copies(a, f) + Copies(b, f) == Copies(files, f)
  }

  lemma CopiesSnoc(files: seq<File>, x: File, f: File)
    ensures Copies(files + [x], f) == Copies(files, f) + if x == f then 1 else 0
  {
    assert (files + [x])[..|files|] == files;
  }

  lemma {:induction false} CopiesIn(files: seq<File>, f: File)
    ensures Copies(files, f) > 0 <==> f in files
  {
    if files != [] { CopiesIn(files[..|files| - 1], f); }
  }

  lemma {:induction false} InsertCopies(p: Policy, f: File, files: seq<File>, x: File)
    requires Sorted(p, files)
    ensures Copies(Insert(p, f, files), x) == Copies(files, x) + if x == f then 1 else 0
  {
    if files != [] {
      var init, last := files[..|files| - 1], files[|files| - 1];
      if Leq(p, last, f) {
        CopiesSnoc(files, f, x);
      } else {
        InsertCopies(p, f, init, x);
        CopiesSnoc(Insert(p, f, init), last, x);
      }
    } else {
      CopiesSnoc([], f, x);
    }
  }

  lemma {:induction false} OrderedCopies(p: Policy, files: seq<File>, x: File)
    ensures Copies(Ordered(p, files), x) == Copies(files, x)
  {
    if files != [] {
      OrderedCopies(p, files[..|files| - 1], x);
      InsertCopies(p, files[|files| - 1], Ordered(p, files[..|files| - 1]), x);
    }
  }

  lemma OrderedIsPermutation(p: Policy, files: seq<File>)
    ensures SameFiles(Ordered(p, files), files)
  {
    forall f ensures Copies(Ordered(p, files), f) == Copies(files, f) { OrderedCopies(p, files, f); }
  }

  lemma SameMembers(a: seq<File>, b: seq<File>, f: File)
    requires SameFiles(a, b)
    ensures f in a <==> f in b
  {
    CopiesIn(a, f);
    CopiesIn(b, f);
  }

  lemma GreatestIsLast(p: Policy, files: seq<File>, x: File)
    requires Sorted(p, files) && x in files
    ensures Leq(p, x, files[|files| - 1])
  {
    LeqOrder(p, x, x, x);
  }

  lemma SameLast(p: Policy, a: seq<File>, b: seq<File>)
    requires Sorted(p, a) && Sorted(p, b) && SameFiles(a, b) && a != [] && b != []
    ensures a[|a| - 1].path == b[|b| - 1].path && b[|b| - 1] in a
  {
    var x, y := a[|a| - 1], b[|b| - 1];
    SameMembers(a, b, x);
    SameMembers(a, b, y);
    GreatestIsLast(p, a, y);
    GreatestIsLast(p, b, x);
    LeqOrder(p, x, y, x);
  }

  lemma SameInit(a: seq<File>, b: seq<File>)
    requires SameFiles(a, b) && a != [] && b != [] && a[|a| - 1] == b[|b| - 1]
    ensures SameFiles(a[..|a| - 1], b[..|b| - 1])
  {
    var initA, initB := a[..|a| - 1], b[..|b| - 1];
    forall f ensures Copies(initA, f) == Copies(initB, f) {
      assert Copies(a, f) == Copies(b, f);
    }
  }

  /** Files with different paths have one order only, so the listing order of a directory cannot matter. */
  lemma {:induction false} OrderIsUnique(p: Policy, a: seq<File>, b: seq<File>)
    requires Sorted(p, a) && Sorted(p, b) && SameFiles(a, b)
    requires forall f, g :: f in a && g in a && f.path == g.path ==> f == g
    ensures a == b
  {
    if a == [] || b == [] {
      if a != [] { SameMembers(a, b, a[0]); }
      if b != [] { SameMembers(a, b, b[0]); }
    } else {
      SameLast(p, a, b);
      SameInit(a, b);
      OrderIsUnique(p, a[..|a| - 1], b[..|b| - 1]);
      assert a == a[..|a| - 1] + [a[|a| - 1]] && b == b[..|b| - 1] + [b[|b| - 1]];
    }
  }

  /** The directory may be listed in any order: the files are considered in the same one. */
  lemma ListingOrderIsIrrelevant(p: Policy, a: seq<File>, b: seq<File>)
    requires SameFiles(a, b)
    requires forall f, g :: f in a && g in a && f.path == g.path ==> f == g
    ensures Ordered(p, a) == Ordered(p, b)
  {
    var x, y := Ordered(p, a), Ordered(p, b);
    OrderedIsPermutation(p, a);
    OrderedIsPermutation(p, b);
    forall f ensures Copies(x, f) == Copies(y, f) {
      assert Copies(x, f) == Copies(a, f) == Copies(b, f) == Copies(y, f);
    }
    forall f, g | f in x && g in x && f.path == g.path ensures f == g {
      SameMembers(x, a, f);
      SameMembers(x, a, g);
    }
    OrderIsUnique(p, x, y);
  }

  // ------------------------------------------------------------- the greedy pass

  function Total(files: seq<File>): nat {
    if files == [] then 0 else Total(files[..|files| - 1]) + files[|files| - 1].size
  }

  function CriticalTotal(p: Policy, files: seq<File>): nat {
    if files == [] then 0
    else CriticalTotal(p, files[..|files| - 1]) + if Critical(p, files[|files| - 1]) then files[|files| - 1].size else 0
  }

  /** `overrun` is set when a critical file does not fit. */
  datatype Pass = Pass(selected: seq<File>, dropped: seq<File>, overrun: bool)

  function Take(p: Policy, sofar: Pass, f: File): Pass {
    if sofar.overrun then sofar
    else if Total(sofar.selected) + f.size <= p.runCap then sofar.(selected := sofar.selected + [f])
    else if Priority(p, f) == 0 then sofar.(overrun := true)
    else sofar.(dropped := sofar.dropped + [f])
  }

  /** The greedy pass over files in the order given. */
  function Greedy(p: Policy, files: seq<File>): Pass {
    if files == [] then Pass([], [], false) else Take(p, Greedy(p, files[..|files| - 1]), files[|files| - 1])
  }

  lemma TotalSnoc(files: seq<File>, f: File)
    ensures Total(files + [f]) == Total(files) + f.size
  {
    assert (files + [f])[..|files|] == files;
  }

  /** The pass stays within the cap. */
  lemma {:induction false} WithinCap(p: Policy, files: seq<File>)
    requires p.runCap >= 0
    ensures Total(Greedy(p, files).selected) <= p.runCap
  {
    if files != [] {
      WithinCap(p, files[..|files| - 1]);
      TotalSnoc(Greedy(p, files[..|files| - 1]).selected, files[|files| - 1]);
    }
  }

  /** Nothing is lost: every considered file is either selected or dropped. */
  lemma {:induction false} NothingLost(p: Policy, files: seq<File>, f: File)
    requires !Greedy(p, files).overrun
    ensures Copies(Greedy(p, files).selected, f) + Copies(Greedy(p, files).dropped, f) == Copies(files, f)
  {
    if files != [] {
      var init, last := files[..|files| - 1], files[|files| - 1];
      NothingLost(p, init, f);
      CopiesSnoc(Greedy(p, init).selected, last, f);
      CopiesSnoc(Greedy(p, init).dropped, last, f);
    }
  }

  /** A dropped file is not critical, and would not fit beside the final selection either. */
  lemma {:induction false} DroppedDoesNotFit(p: Policy, files: seq<File>, f: File)
    requires f in Greedy(p, files).dropped
    ensures !Critical(p, f) && Total(Greedy(p, files).selected) + f.size > p.runCap
  {
    var init, last := files[..|files| - 1], files[|files| - 1];
    if f in Greedy(p, init).dropped { DroppedDoesNotFit(p, init, f); }
    TotalSnoc(Greedy(p, init).selected, last);
  }

  lemma SortedInit(p: Policy, files: seq<File>)
    requires Sorted(p, files) && files != []
    ensures Sorted(p, files[..|files| - 1])
    ensures |files| > 1 && Critical(p, files[|files| - 1]) ==> Critical(p, files[|files| - 2])
  {
    if |files| > 1 { assert Leq(p, files[|files| - 2], files[|files| - 1]); }
  }

  /** Critical files come first: up to the last of them, everything is critical and taken. */
  lemma {:induction false} CriticalComeFirst(p: Policy, files: seq<File>)
    requires Sorted(p, files) && files != [] && Critical(p, files[|files| - 1])
    ensures CriticalTotal(p, files) == Total(files)
    ensures !Greedy(p, files).overrun ==> Greedy(p, files).selected == files
  {
    var init, last := files[..|files| - 1], files[|files| - 1];
    SortedInit(p, files);
    if init != [] { CriticalComeFirst(p, init); }
    assert files == init + [last];
  }

  lemma {:induction false} CriticalAtMostTotal(p: Policy, files: seq<File>)
    ensures CriticalTotal(p, files) <= Total(files)
  {
    if files != [] { CriticalAtMostTotal(p, files[..|files| - 1]); }
  }

  /** The pass fails exactly when the critical files alone exceed the cap. */
  lemma {:induction false} OverrunExactly(p: Policy, files: seq<File>)
    requires Sorted(p, files) && p.runCap >= 0
    ensures Greedy(p, files).overrun <==> CriticalTotal(p, files) > p.runCap
  {
    if files != [] {
      var init, last := files[..|files| - 1], files[|files| - 1];
      SortedInit(p, files);
      OverrunExactly(p, init);
      if Critical(p, last) && init != [] { CriticalComeFirst(p, init); }
    }
  }

  /** The bytes selected in files ranked at or before `f`. */
  function RankedTotal(p: Policy, selected: seq<File>, f: File): nat {
    if selected == [] then 0
    else
      RankedTotal(p, selected[..|selected| - 1], f)
      + if Leq(p, selected[|selected| - 1], f) then selected[|selected| - 1].size else 0
  }

  lemma RankedSnoc(p: Policy, selected: seq<File>, x: File, f: File)
    ensures RankedTotal(p, selected + [x], f) == RankedTotal(p, selected, f) + if Leq(p, x, f) then x.size else 0
  {
    assert (selected + [x])[..|selected|] == selected;
  }

  predicate AllRanked(p: Policy, files: seq<File>, f: File) {
    files == [] || (Leq(p, files[|files| - 1], f) && AllRanked(p, files[..|files| - 1], f))
  }

  lemma {:induction false} AllRankedTotal(p: Policy, selected: seq<File>, f: File)
    requires AllRanked(p, selected, f)
    ensures RankedTotal(p, selected, f) == Total(selected)
  {
    if selected != [] { AllRankedTotal(p, selected[..|selected| - 1], f); }
  }

  /** What a pass selects from files ranked before `f` is ranked before `f`. */
  lemma {:induction false} SelectedAreRanked(p: Policy, files: seq<File>, f: File)
    requires AllRanked(p, files, f)
    ensures AllRanked(p, Greedy(p, files).selected, f)
  {
    if files != [] {
      var init, last := files[..|files| - 1], files[|files| - 1];
      SelectedAreRanked(p, init, f);
      var before := Greedy(p, init).selected;
      assert (before + [last])[..|before|] == before;
    }
  }

  lemma {:induction false} SortedIsRanked(p: Policy, files: seq<File>, f: File)
    requires Sorted(p, files) && (files != [] ==> Leq(p, files[|files| - 1], f))
    ensures AllRanked(p, files, f)
  {
    if files != [] {
      SortedInit(p, files);
      if |files| > 1 {
        assert Leq(p, files[|files| - 2], files[|files| - 1]);
        LeqOrder(p, files[|files| - 2], files[|files| - 1], f);
      }
      SortedIsRanked(p, files[..|files| - 1], f);
    }
  }

  /** Priority is respected: the selected files ranked at or before a dropped file alone leave no room for it,
      whatever of lower rank was selected after it. */
  lemma {:induction false} DroppedForBetterOnly(p: Policy, files: seq<File>, f: File)
    requires Sorted(p, files) && f in Greedy(p, files).dropped
    ensures RankedTotal(p, Greedy(p, files).selected, f) + f.size > p.runCap
  {
    var init, last := files[..|files| - 1], files[|files| - 1];
    var before := Greedy(p, init);
    SortedInit(p, files);
    if f in before.dropped {
      DroppedForBetterOnly(p, init, f);
      RankedSnoc(p, before.selected, last, f);
    } else {
      if init != [] { assert Leq(p, init[|init| - 1], last); }
      SortedIsRanked(p, init, last);
      SelectedAreRanked(p, init, last);
      AllRankedTotal(p, before.selected, last);
    }
  }

  lemma {:induction false} CriticalAreSelected(p: Policy, files: seq<File>, f: File)
    requires !Greedy(p, files).overrun && f in files && Critical(p, f)
    ensures f in Greedy(p, files).selected
  {
    var init, last := files[..|files| - 1], files[|files| - 1];
    if f in init { CriticalAreSelected(p, init, f); }
  }

  /** Nothing is selected exactly when no file is critical and none fits alone. */
  lemma {:induction false} NothingSelectedExactly(p: Policy, files: seq<File>)
    ensures Greedy(p, files).selected == [] && !Greedy(p, files).overrun
            <==> forall f :: f in files ==> !Critical(p, f) && f.size > p.runCap
  {
    if files != [] {
      var init, last := files[..|files| - 1], files[|files| - 1];
      NothingSelectedExactly(p, init);
      assert forall f :: f in files <==> f in init || f == last;
    }
  }

  lemma {:induction false} CriticalTotalInserted(p: Policy, f: File, files: seq<File>)
    requires Sorted(p, files)
    ensures CriticalTotal(p, Insert(p, f, files)) == CriticalTotal(p, files) + if Critical(p, f) then f.size else 0
  {
    if files != [] {
      var init, last := files[..|files| - 1], files[|files| - 1];
      if Leq(p, last, f) {
        assert (files + [f])[..|files|] == files;
      } else {
        CriticalTotalInserted(p, f, init);
        var r := Insert(p, f, init);
        assert (r + [last])[..|r|] == r;
      }
    }
  }

  lemma {:induction false} CriticalTotalOrdered(p: Policy, files: seq<File>)
    ensures CriticalTotal(p, Ordered(p, files)) == CriticalTotal(p, files)
  {
    if files != [] {
      CriticalTotalOrdered(p, files[..|files| - 1]);
      CriticalTotalInserted(p, files[|files| - 1], Ordered(p, files[..|files| - 1]));
    }
  }

  /** A file above the cap for files, or a CSV file above the cap for those. */
  predicate Oversized(p: Policy, f: File) {
    f.size > p.fileCap || (f.extension == ".csv" && f.size > p.csvCap)
  }

  /** The size checks hold for every file but those a workflow overrides: an oversized file is accepted exactly when the
      workflow overrides the policy for it and does not itself reject it. */
  lemma OversizedExactly(p: Policy, w: Workflow, f: File)
    requires Oversized(p, f)
    ensures Accepts(p, w, f) <==> Overrides(p, w, f) && WorkflowRejects(w.profile, f).None?
  {
    if !Overrides(p, w, f) { assert Rejects(p, f).Some?; }
  }

  /** Under a loaded policy the selection can only come out empty if every accepted file skipped the size checks. */
  lemma EmptyOnlyByOverrides(p: Policy, w: Workflow, paths: seq<File>, f: File)
    requires Loaded(p) && f in Accepted(p, w, paths)
    requires Greedy(p, Ordered(p, Accepted(p, w, paths))).selected == []
             && !Greedy(p, Ordered(p, Accepted(p, w, paths))).overrun
    ensures Overrides(p, w, f)
  {
    var accepted := Accepted(p, w, paths);
    NothingSelectedExactly(p, Ordered(p, accepted));
    OrderedIsPermutation(p, accepted);
    SameMembers(Ordered(p, accepted), accepted, f);
    AcceptedExactly(p, w, paths, f);
    OversizedExactly(p, w, f);
  }

  // ------------------------------------------------------------------ selection

  datatype SelectError = WorkflowRequired | ProfileUnknown | NothingAccepted | CriticalExceedsCap | NothingRemains

  datatype Exclusion = Exclusion(file: File, reason: Reason)

  datatype Selection = Failed(error: SelectError) | Chosen(selected: seq<File>, excluded: seq<Exclusion>)

  function FilesOf(excluded: seq<Exclusion>): seq<File> {
    if excluded == [] then [] else FilesOf(excluded[..|excluded| - 1]) + [excluded[|excluded| - 1].file]
  }

  lemma ExcludeOne(excluded: seq<Exclusion>, x: Exclusion)
    ensures FilesOf(excluded + [x]) == FilesOf(excluded) + [x.file]
  {
    assert (excluded + [x])[..|excluded|] == excluded;
  }

  /** An exclusion made by the classification. */
  predicate Rejected(p: Policy, w: Workflow, x: Exclusion) {
    x.reason != PerRunCapDropped && Verdict(p, w, x.file) == Some(x.reason)
  }

  /** An exclusion is for the reason the classification gives, or for the cap. */
  predicate Justified(p: Policy, w: Workflow, selected: seq<File>, x: Exclusion) {
    || Rejected(p, w, x)
    || (x.reason == PerRunCapDropped && Accepts(p, w, x.file) && !Critical(p, x.file)
        && Total(selected) + x.file.size > p.runCap)
  }

  /** The parts grow with the list: one more file in the first part, or one more exclusion. */
  lemma PartitionGrows(a: seq<File>, b: seq<Exclusion>, files: seq<File>, x: Exclusion)
    requires Partition(a, FilesOf(b), files)
    ensures Partition(a + [x.file], FilesOf(b), files + [x.file])
    ensures Partition(a, FilesOf(b + [x]), files + [x.file])
  {
    ExcludeOne(b, x);
    forall f
      ensures Copies(a + [x.file], f) + Copies(FilesOf(b), f) == Copies(files + [x.file], f)
      ensures Copies(a, f) + Copies(FilesOf(b + [x]), f) == Copies(files + [x.file], f)
    {
      assert Copies(a, f) + Copies(FilesOf(b), f) == Copies(files, f);
      CopiesSnoc(a, x.file, f);
      CopiesSnoc(files, x.file, f);
      CopiesSnoc(FilesOf(b), x.file, f);
    }
  }

  lemma AcceptedSnoc(p: Policy, w: Workflow, files: seq<File>, f: File)
    ensures Accepted(p, w, files + [f])
            == if Accepts(p, w, f) then Accepted(p, w, files) + [f] else Accepted(p, w, files)
  {
    assert (files + [f])[..|files|] == files;
  }

  method Classify(p: Policy, w: Workflow, paths: seq<File>) returns (accepted: seq<File>, excluded: seq<Exclusion>)
    ensures accepted == Accepted(p, w, paths)
    ensures forall x :: x in excluded ==> Rejected(p, w, x)
    ensures Partition(accepted, FilesOf(excluded), paths)
  {
    accepted, excluded := [], [];
    for i := 0 to |paths|
      invariant accepted == Accepted(p, w, paths[..i])
      invariant forall x :: x in excluded ==> Rejected(p, w, x)
      invariant Partition(accepted, FilesOf(excluded), paths[..i])
    {
      assert paths[..i + 1] == paths[..i] + [paths[i]];
      AcceptedSnoc(p, w, paths[..i], paths[i]);
      var verdict := Verdict(p, w, paths[i]);
      var reason := if verdict.Some? then verdict.value else PerRunCapDropped;
      PartitionGrows(accepted, excluded, paths[..i], Exclusion(paths[i], reason));
      if verdict.None? {
        accepted := accepted + [paths[i]];
      } else {
        excluded := excluded + [Exclusion(paths[i], verdict.value)];
      }
    }
    assert paths[..|paths|] == paths;
  }

  /** The exclusions are the rejected files and the dropped ones. */
  ghost predicate ExcludedAre(excluded: seq<Exclusion>, rejected: seq<Exclusion>, drops: seq<File>) {
    && Partition(FilesOf(rejected), drops, FilesOf(excluded))
    && forall x :: x in excluded ==> x in rejected || (x.reason == PerRunCapDropped && x.file in drops)
  }

  lemma ExclusionAdded(rejected: seq<Exclusion>, drops: seq<File>, excluded: seq<Exclusion>, f: File)
    requires ExcludedAre(excluded, rejected, drops)
    ensures ExcludedAre(excluded + [Exclusion(f, PerRunCapDropped)], rejected, drops + [f])
  {
    ExcludeOne(excluded, Exclusion(f, PerRunCapDropped));
    forall g ensures Copies(FilesOf(rejected), g) + Copies(drops + [f], g) == Copies(FilesOf(excluded) + [f], g) {
      assert Copies(FilesOf(rejected), g) + Copies(drops, g) == Copies(FilesOf(excluded), g);
      CopiesSnoc(drops, f, g);
      CopiesSnoc(FilesOf(excluded), f, g);
    }
  }

  method TakeGreedily(p: Policy, order: seq<File>, rejected: seq<Exclusion>)
    returns (overrun: bool, selected: seq<File>, excluded: seq<Exclusion>)
    ensures overrun == Greedy(p, order).overrun
    ensures !overrun ==> selected == Greedy(p, order).selected
    ensures !overrun ==> ExcludedAre(excluded, rejected, Greedy(p, order).dropped)
  {
    selected, excluded := [], rejected;
    var bytes := 0;
    for i := 0 to |order|
      invariant var g := Greedy(p, order[..i]);
                && !g.overrun && selected == g.selected && bytes == Total(selected)
                && ExcludedAre(excluded, rejected, g.dropped)
    {
      ghost var g := Greedy(p, order[..i]);
      assert order[..i + 1][..i] == order[..i];
      var f := order[i];
      if bytes + f.size <= p.runCap {
        TotalSnoc(selected, f);
        selected := selected + [f];
        bytes := bytes + f.size;
      } else if Priority(p, f) == 0 {
        OverrunStays(p, order, i + 1);
        return true, selected, rejected;
      } else {
        ExclusionAdded(rejected, g.dropped, excluded, f);
        excluded := excluded + [Exclusion(f, PerRunCapDropped)];
      }
    }
    assert order[..|order|] == order;
    overrun := false;
  }

  lemma {:induction false} OverrunStays(p: Policy, files: seq<File>, n: nat)
    requires n <= |files| && Greedy(p, files[..n]).overrun
    ensures Greedy(p, files).overrun
    decreases |files|
  {
    if n < |files| {
      var init := files[..|files| - 1];
      assert init[..n] == files[..n];
      OverrunStays(p, init, n);
    } else {
      assert files[..n] == files;
    }
  }

  /** When the selection fails after classification, and when not. */
  ghost predicate Outcome(p: Policy, accepted: seq<File>, r: Selection) {
    && (r == Failed(NothingAccepted) <==> accepted == [])
    && (r == Failed(CriticalExceedsCap) <==> CriticalTotal(p, accepted) > p.runCap)
    && (r == Failed(NothingRemains) <==>
          accepted != [] && forall f :: f in accepted ==> !Critical(p, f) && f.size > p.runCap)
  }

  /** What a successful selection is: it partitions the input, keeps the cap and every critical file, and
      leaves out only what is rejected or still would not fit. */
  ghost predicate GoodSelection(p: Policy, w: Workflow, paths: seq<File>, selected: seq<File>,
                                excluded: seq<Exclusion>) {
    && Total(selected) <= p.runCap
    && Partition(selected, FilesOf(excluded), paths)
    && (forall f :: f in selected ==> Accepts(p, w, f))
    && (forall f :: f in paths && Accepts(p, w, f) && Critical(p, f) ==> f in selected)
    && (forall x :: x in excluded ==> Justified(p, w, selected, x))
  }

  lemma {:induction false} FromTheFiles(p: Policy, files: seq<File>, f: File)
    requires f in Greedy(p, files).selected || f in Greedy(p, files).dropped
    ensures f in files
  {
    var init := files[..|files| - 1];
    if f in Greedy(p, init).selected || f in Greedy(p, init).dropped { FromTheFiles(p, init, f); }
  }

  lemma PassPartitions(p: Policy, paths: seq<File>, accepted: seq<File>, order: seq<File>, rejected: seq<Exclusion>,
                       excluded: seq<Exclusion>)
    requires !Greedy(p, order).overrun && SameFiles(order, accepted)
    requires Partition(accepted, FilesOf(rejected), paths)
    requires Partition(FilesOf(rejected), Greedy(p, order).dropped, FilesOf(excluded))
    ensures Partition(Greedy(p, order).selected, FilesOf(excluded), paths)
  {
    forall f ensures Copies(Greedy(p, order).selected, f) + Copies(FilesOf(excluded), f) == Copies(paths, f) {
      NothingLost(p, order, f);
      assert Copies(order, f) == Copies(accepted, f);
      assert Copies(accepted, f) + Copies(FilesOf(rejected), f) == Copies(paths, f);
      assert Copies(FilesOf(rejected), f) + Copies(Greedy(p, order).dropped, f) == Copies(FilesOf(excluded), f);
    }
  }

  lemma PassSelects(p: Policy, w: Workflow, paths: seq<File>, order: seq<File>, f: File)
    requires !Greedy(p, order).overrun && SameFiles(order, Accepted(p, w, paths))
    ensures f in Greedy(p, order).selected || f in Greedy(p, order).dropped ==> Accepts(p, w, f)
    ensures f in paths && Accepts(p, w, f) && Critical(p, f) ==> f in Greedy(p, order).selected
  {
    SameMembers(order, Accepted(p, w, paths), f);
    AcceptedExactly(p, w, paths, f);
    if f in Greedy(p, order).selected || f in Greedy(p, order).dropped { FromTheFiles(p, order, f); }
    if f in paths && Accepts(p, w, f) && Critical(p, f) { CriticalAreSelected(p, order, f); }
  }

  lemma DropIsJustified(p: Policy, w: Workflow, paths: seq<File>, order: seq<File>, x: Exclusion)
    requires !Greedy(p, order).overrun && SameFiles(order, Accepted(p, w, paths))
    requires x.reason == PerRunCapDropped && x.file in Greedy(p, order).dropped
    ensures Justified(p, w, Greedy(p, order).selected, x)
  {
    PassSelects(p, w, paths, order, x.file);
    DroppedDoesNotFit(p, order, x.file);
  }

  lemma DropsAreJustified(p: Policy, w: Workflow, paths: seq<File>, order: seq<File>)
    requires !Greedy(p, order).overrun && SameFiles(order, Accepted(p, w, paths))
    ensures forall f :: f in Greedy(p, order).dropped ==>
              Justified(p, w, Greedy(p, order).selected, Exclusion(f, PerRunCapDropped))
  {
    forall f | f in Greedy(p, order).dropped
      ensures Justified(p, w, Greedy(p, order).selected, Exclusion(f, PerRunCapDropped))
    {
      DropIsJustified(p, w, paths, order, Exclusion(f, PerRunCapDropped));
    }
  }

  lemma SelectionKeepsCritical(p: Policy, w: Workflow, paths: seq<File>, order: seq<File>)
    requires !Greedy(p, order).overrun && SameFiles(order, Accepted(p, w, paths))
    ensures forall f :: f in Greedy(p, order).selected ==> Accepts(p, w, f)
    ensures forall f :: f in paths && Accepts(p, w, f) && Critical(p, f) ==> f in Greedy(p, order).selected
  {
    forall f | f in Greedy(p, order).selected ensures Accepts(p, w, f) { PassSelects(p, w, paths, order, f); }
    forall f | f in paths && Accepts(p, w, f) && Critical(p, f) ensures f in Greedy(p, order).selected {
      PassSelects(p, w, paths, order, f);
    }
  }

  lemma FailureExactly(p: Policy, accepted: seq<File>, order: seq<File>)
    requires p.runCap >= 0 && order == Ordered(p, accepted)
    ensures Greedy(p, order).overrun <==> CriticalTotal(p, accepted) > p.runCap
    ensures Greedy(p, order).selected == [] && !Greedy(p, order).overrun
            <==> forall f :: f in accepted ==> !Critical(p, f) && f.size > p.runCap
  {
    OverrunExactly(p, order);
    CriticalTotalOrdered(p, accepted);
    NothingSelectedExactly(p, order);
    OrderedIsPermutation(p, accepted);
    forall f ensures f in order <==> f in accepted { SameMembers(order, accepted, f); }
  }

  method SelectFiles(p: Policy, w: Workflow, paths: seq<File>) returns (r: Selection)
    requires p.runCap >= 0
    ensures r == Failed(WorkflowRequired) <==> paths != [] && p.requireProfile && w.NoWorkflow?
    ensures r == Failed(ProfileUnknown) <==> paths != [] && w.UnknownProfile?
    ensures !(paths != [] && (w.UnknownProfile? || (p.requireProfile && w.NoWorkflow?)))
            ==> Outcome(p, Accepted(p, w, paths), r)
    ensures r.Chosen? ==> GoodSelection(p, w, paths, r.selected, r.excluded)
    ensures r.Chosen? && Loaded(p) ==> Total(r.selected) + p.reserve <= p.quota
  {
    if paths != [] && p.requireProfile && w.NoWorkflow? { return Failed(WorkflowRequired); }
    if paths != [] && w.UnknownProfile? { return Failed(ProfileUnknown); }
    var accepted, rejected := Classify(p, w, paths);
    if accepted == [] { return Failed(NothingAccepted); }
    var order := Ordered(p, accepted);
    OrderedIsPermutation(p, accepted);
    FailureExactly(p, accepted, order);
    var overrun, selected, excluded := TakeGreedily(p, order, rejected);
    if overrun { return Failed(CriticalExceedsCap); }
    if selected == [] { return Failed(NothingRemains); }
    WithinCap(p, order);
    PassPartitions(p, paths, accepted, order, rejected, excluded);
    SelectionKeepsCritical(p, w, paths, order);
    DropsAreJustified(p, w, paths, order);
    forall x | x in excluded ensures Justified(p, w, selected, x) { assert x == Exclusion(x.file, x.reason); }
    r := Chosen(selected, excluded);
  }

  // ----------------------------------------------- an oversized file that is selected

  const EXAMPLE_POLICY := Policy(10, 0, 9, 1, 1, [".md"], [], [], [], ["evidence"], [], ["a"], [], true)
  const EXAMPLE_WORKFLOW := Configured(Profile(["r"], [], ["a"]))
  const EXAMPLE_FILE := File("r/a.md", "r/a.md", "a.md", ".md", "r", 2)

  lemma ExampleIsOverridden()
    ensures Overrides(EXAMPLE_POLICY, EXAMPLE_WORKFLOW, EXAMPLE_FILE)
    ensures Critical(EXAMPLE_POLICY, EXAMPLE_FILE)
  {
    assert Contains("a.md", "a") && !Contains("a.md", "evidence");
    assert AnyIn(["a"], "a.md") && !AnyIn(["evidence"], "a.md");
    assert Rejects(EXAMPLE_POLICY, EXAMPLE_FILE) == Some(FilenameNotEvidence);
  }

  lemma ExampleIsAccepted()
    ensures Accepts(EXAMPLE_POLICY, EXAMPLE_WORKFLOW, EXAMPLE_FILE)
  {
    ExampleIsOverridden();
    var profile := EXAMPLE_WORKFLOW.profile;
    assert "r" in profile.prefixes && "r" <= EXAMPLE_FILE.root;
    assert WorkflowRejects(profile, EXAMPLE_FILE).None?;
    OversizedExactly(EXAMPLE_POLICY, EXAMPLE_WORKFLOW, EXAMPLE_FILE);
  }

  lemma ExampleAlone()
    ensures Accepted(EXAMPLE_POLICY, EXAMPLE_WORKFLOW, [EXAMPLE_FILE]) == [EXAMPLE_FILE]
    ensures CriticalTotal(EXAMPLE_POLICY, [EXAMPLE_FILE]) == 2
  {
    ExampleIsAccepted();
    ExampleIsOverridden();
    assert [EXAMPLE_FILE][..0] == [];
  }

  /** Under a loaded policy the selection takes a file of twice the per-file cap. */
  method OversizedFileIsSelected() returns (r: Selection)
    ensures Loaded(EXAMPLE_POLICY) && EXAMPLE_FILE.size == 2 * EXAMPLE_POLICY.fileCap
    ensures r.Chosen? && EXAMPLE_FILE in r.selected
  {
    ExampleAlone();
    ExampleIsAccepted();
    ExampleIsOverridden();
    r := SelectFiles(EXAMPLE_POLICY, EXAMPLE_WORKFLOW, [EXAMPLE_FILE]);
    SelectionOfOne(EXAMPLE_POLICY, EXAMPLE_WORKFLOW, EXAMPLE_FILE, r);
  }

  lemma SelectionOfOne(p: Policy, w: Workflow, f: File, r: Selection)
    requires Accepted(p, w, [f]) == [f] && Accepts(p, w, f) && Critical(p, f) && CriticalTotal(p, [f]) <= p.runCap
    requires r != Failed(WorkflowRequired) && r != Failed(ProfileUnknown) && Outcome(p, [f], r)
    requires r.Chosen? ==> GoodSelection(p, w, [f], r.selected, r.excluded)
    ensures r.Chosen? && f in r.selected
  {
    assert f in [f];
    assert r.Failed? ==> r == Failed(r.error);
    if r.Failed? {
      match r.error
      case WorkflowRequired =>
      case ProfileUnknown =>
      case NothingAccepted =>
      case CriticalExceedsCap =>
      case NothingRemains =>
    }
  }
}
