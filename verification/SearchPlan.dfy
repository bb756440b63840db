/** Normalisation of the advanced search fields, and the fingerprint that cursors are bound to. */
module SearchPlan {
  import opened Sequences
  import opened StringOrder
  import opened Text

  datatype Filters = Filters(included: seq<string>, excluded: seq<string>)

  datatype QueryOptions = QueryOptions(
    exactPhrases: seq<string>,
    anyTerms: seq<string>,
    excludeTerms: seq<string>,
    titleTerms: seq<string>,
    fileTypes: seq<string>)

  datatype Request = Request(
    query: string,
    providers: seq<string>,
    provider: string,
    limit: int,
    page: int,
    region: string,
    filters: Filters,
    options: QueryOptions,
    pageToken: string)

  datatype Problem =
    | TooManyValues
    | InvalidDomain(raw: string)
    | NoPublicSuffix(raw: string)
    | InvalidLength
    | InvalidFileType(raw: string)
    | ConflictingDomain(name: string)

  datatype Field =
    IncludeDomains | ExcludeDomains | ExactPhrases | AnyTerms | ExcludeTerms | TitleTerms | FileTypes

  datatype Failure = Failure(field: Field, problem: Problem)

  datatype Result<+T, +E> = Ok(value: T) | Err(error: E) {
    predicate IsFailure() { Err? }

    function PropagateFailure<U>(): Result<U, E>
      requires Err?
    {
      Err(error)
    }

    function Extract(): T
      requires Ok?
    {
      value
    }
  }

  datatype Kind = Domains | Texts | Extensions

  // ------------------------------------------------------------------
  // One value
  // ------------------------------------------------------------------

  predicate IsLabel(s: string) {
    && 1 <= |s| <= 63
    && IsAlphanumeric(s[0]) && IsAlphanumeric(s[|s| - 1])
    && forall c :: c in s ==> IsAlphanumeric(c) || c == '-'
  }

  function Decimal(s: string): int {
    if s == "" then 0 else 10 * Decimal(s[..|s| - 1]) + (s[|s| - 1] as int - '0' as int)
  }

  predicate IsOctet(s: string) {
    && 1 <= |s| <= 3 && (forall c :: c in s ==> IsDigit(c))
    && (|s| > 1 ==> s[0] != '0') && Decimal(s) <= 255
  }

  /** What `net.ParseIP` accepts among the strings without a colon. */
  predicate IsIPv4(s: string) {
    var parts := Split(s, '.');
    |parts| == 4 && forall part :: part in parts ==> IsOctet(part)
  }

  predicate HasAddressSyntax(s: string) {
    exists c :: c in s && c in "/:@?#"
  }

  predicate IsDomain(s: string) {
    && s != "" && !HasAddressSyntax(s) && !IsIPv4(s)
    && |Split(s, '.')| >= 2 && forall part :: part in Split(s, '.') ==> IsLabel(part)
  }

  predicate IsExtension(s: string) {
    1 <= |s| <= 10 && forall c :: c in s ==> IsAlphanumeric(c)
  }

  function CleanDomain(raw: string): Result<string, Problem> {
    var value := TrimSuffix(Lower(TrimSpace(raw)), '.');
    if value == "" || HasAddressSyntax(value) || IsIPv4(value) then Err(InvalidDomain(raw))
    else if |Split(value, '.')| < 2 then Err(NoPublicSuffix(raw))
    else if exists part :: part in Split(value, '.') && !IsLabel(part) then Err(InvalidDomain(raw))
    else Ok(value)
  }

  function CleanText(raw: string): Result<string, Problem> {
    var value := Squeeze(raw);
    if value == "" || |value| > 100 then Err(InvalidLength) else Ok(value)
  }

  function CleanExtension(raw: string): Result<string, Problem> {
    var value := Lower(TrimPrefix(TrimSpace(raw), '.'));
    if IsExtension(value) then Ok(value) else Err(InvalidFileType(raw))
  }

  function Clean(kind: Kind, raw: string): Result<string, Problem> {
    match kind
    case Domains => CleanDomain(raw)
    case Texts => CleanText(raw)
    case Extensions => CleanExtension(raw)
  }

  // ------------------------------------------------------------------
  // A list of values
  // ------------------------------------------------------------------

  /** Clean values, each where it first occurs, up to the first value that cannot be cleaned. */
  function Collect(kind: Kind, values: seq<string>): Result<seq<string>, Problem> {
    if values == [] then Ok([])
    else
      var n := |values| - 1;
      var kept :- Collect(kind, values[..n]);
      var value :- Clean(kind, values[n]);
      Ok(if value in kept then kept else kept + [value])
  }

  function Insert(s: string, sorted: seq<string>): seq<string> {
    if sorted == [] || Less(s, sorted[0]) then [s] + sorted else [sorted[0]] + Insert(s, sorted[1..])
  }

  function Sort(values: seq<string>): seq<string> {
    if values == [] then [] else Insert(values[0], Sort(values[1..]))
  }

  function MaxValues(kind: Kind): nat {
    if kind == Extensions then 10 else 20
  }

  function NormalizeList(kind: Kind, values: seq<string>): Result<seq<string>, Problem> {
    if |values| > MaxValues(kind) then Err(TooManyValues)
    else
      var kept :- Collect(kind, values);
      Ok(if kind == Texts then kept else Sort(kept))
  }

  function Cleaned(kind: Kind, values: seq<string>): set<string> {
    set raw | raw in values && Clean(kind, raw).Ok? :: Clean(kind, raw).value
  }

  ghost predicate Ascending(s: seq<string>) {
    forall i, j :: 0 <= i < j < |s| ==> Less(s[i], s[j])
  }

  // ------------------------------------------------------------------
  // A request
  // ------------------------------------------------------------------

  function InField<T>(field: Field, r: Result<T, Problem>): Result<T, Failure> {
    match r
    case Ok(value) => Ok(value)
    case Err(problem) => Err(Failure(field, problem))
  }

  /** The first included domain that is excluded as well. */
  function Conflict(included: seq<string>, excluded: seq<string>): Result<(), Failure> {
    if included == [] then Ok(())
    else if included[0] in excluded then Err(Failure(IncludeDomains, ConflictingDomain(included[0])))
    else Conflict(included[1..], excluded)
  }

  function NormalizedFilters(filters: Filters): Result<Filters, Failure> {
    var included :- InField(IncludeDomains, NormalizeList(Domains, filters.included));
    var excluded :- InField(ExcludeDomains, NormalizeList(Domains, filters.excluded));
    var _ :- Conflict(included, excluded);
    Ok(Filters(included, excluded))
  }

  function NormalizedOptions(options: QueryOptions): Result<QueryOptions, Failure> {
    var exactPhrases :- InField(ExactPhrases, NormalizeList(Texts, options.exactPhrases));
    var anyTerms :- InField(AnyTerms, NormalizeList(Texts, options.anyTerms));
    var excludeTerms :- InField(ExcludeTerms, NormalizeList(Texts, options.excludeTerms));
    var titleTerms :- InField(TitleTerms, NormalizeList(Texts, options.titleTerms));
    var fileTypes :- InField(FileTypes, NormalizeList(Extensions, options.fileTypes));
    Ok(QueryOptions(exactPhrases, anyTerms, excludeTerms, titleTerms, fileTypes))
  }

  function Normalized(request: Request): Result<Request, Failure> {
    var filters :- NormalizedFilters(request.filters);
    var options :- NormalizedOptions(request.options);
    Ok(request.(filters := filters, options := options))
  }

  /** The public fields that can affect result content; the digest of them is taken to be injective. */
  datatype Digest = Digest(
    query: string,
    providers: seq<string>,
    limit: int,
    region: string,
    filters: Filters,
    options: QueryOptions)

  function DigestOf(r: Request): Digest {
    Digest(r.query, r.providers, r.limit, r.region, r.filters, r.options)
  }

  function Fingerprint(request: Request): Digest {
    match Normalized(request)
    case Ok(normalized) => DigestOf(normalized)
    case Err(_) => DigestOf(request)
  }

  // ------------------------------------------------------------------
  // Cleaning is idempotent and ignores case
  // ------------------------------------------------------------------

  lemma DomainCharacters(s: string, c: char)
    requires IsDomain(s) && c in s
    ensures IsAlphanumeric(c) || c == '-' || c == '.'
  {
    if c != '.' {
      SplitCharacters(s, '.', c);
    }
  }

  lemma DomainEnds(s: string)
    requires IsDomain(s)
    ensures s[|s| - 1] != '.'
  {
    if s[|s| - 1] == '.' {
      SplitLast(s, '.');
    }
  }

  lemma DomainIsClean(s: string)
    requires IsDomain(s)
    ensures CleanDomain(s) == Ok(s)
  {
    forall i | 0 <= i < |s| ensures LowerChar(s[i]) == s[i] && !IsSpace(s[i]) {
      DomainCharacters(s, s[i]);
    }
    TrimNothing(s);
    assert Lower(s) == s;
    DomainEnds(s);
  }

  lemma ExtensionIsClean(s: string)
    requires IsExtension(s)
    ensures CleanExtension(s) == Ok(s)
  {
    assert s[0] in s && s[|s| - 1] in s;
    TrimNothing(s);
    assert forall i :: 0 <= i < |s| ==> s[i] in s;
    assert Lower(s) == s;
  }

  /** A clean value cleans to itself. */
  lemma CleanTwice(kind: Kind, raw: string)
    ensures Clean(kind, raw).Ok? ==> Clean(kind, Clean(kind, raw).value) == Clean(kind, raw)
  {
    if Clean(kind, raw).Ok? {
      match kind
      case Domains => DomainIsClean(Clean(kind, raw).value);
      case Texts => SqueezeTwice(raw);
      case Extensions => ExtensionIsClean(Clean(kind, raw).value);
    }
  }

  /** Domains and file types that differ in case only clean to the same value, or both fail. */
  lemma CleanIgnoresCase(kind: Kind, raw: string, other: string)
    requires kind != Texts && Lower(raw) == Lower(other)
    ensures Clean(kind, raw).Ok? <==> Clean(kind, other).Ok?
    ensures Clean(kind, raw).Ok? ==> Clean(kind, other) == Clean(kind, raw)
  {
    LowerThenTrim(raw);
    LowerThenTrim(other);
    LowerOfPrefix(TrimSpace(raw));
    LowerOfPrefix(TrimSpace(other));
  }

  lemma LowerOfPrefix(s: string)
    ensures Lower(TrimPrefix(s, '.')) == TrimPrefix(Lower(s), '.')
  {
  }

  // ------------------------------------------------------------------
  // Sorting
  // ------------------------------------------------------------------

  lemma {:induction false} InsertSorts(s: string, sorted: seq<string>)
    requires Ascending(sorted) && s !in sorted
    ensures Ascending(Insert(s, sorted)) && Elements(Insert(s, sorted)) == Elements(sorted) + {s}
    ensures |Insert(s, sorted)| == |sorted| + 1
  {
    if sorted != [] && !Less(s, sorted[0]) {
      LessTotal(s, sorted[0]);
      var rest := Insert(s, sorted[1..]);
      InsertSorts(s, sorted[1..]);
      assert sorted == [sorted[0]] + sorted[1..];
      forall j | 0 <= j < |rest| ensures Less(sorted[0], rest[j]) {
        assert rest[j] in Elements(rest);
      }
    } else if sorted != [] {
      forall j | 0 <= j < |sorted| ensures Less(s, sorted[j]) {
        if j > 0 {
          LessTransitive(s, sorted[0], sorted[j]);
        }
      }
    }
  }

  lemma {:induction false} SortSorts(values: seq<string>)
    requires Distinct(values)
    ensures Ascending(Sort(values)) && Elements(Sort(values)) == Elements(values) && |Sort(values)| == |values|
  {
    if values != [] {
      SortSorts(values[1..]);
      assert values == [values[0]] + values[1..];
      assert values[0] !in Elements(values[1..]);
      InsertSorts(values[0], Sort(values[1..]));
    }
  }

  /** An ascending list is determined by its elements. */
  lemma {:induction false} AscendingIsUnique(a: seq<string>, b: seq<string>)
    requires Ascending(a) && Ascending(b) && Elements(a) == Elements(b)
    ensures a == b
  {
    assert a != [] ==> a[0] in Elements(a);
    assert b != [] ==> b[0] in Elements(b);
    if a != [] && b != [] {
      assert a[0] in Elements(b) && b[0] in Elements(a);
      if a[0] != b[0] {
        var i :| 0 <= i < |b| && b[i] == a[0];
        var j :| 0 <= j < |a| && a[j] == b[0];
        LessTransitive(a[0], b[0], a[0]);
        LessIrreflexive(a[0]);
      }
      assert a == [a[0]] + a[1..] && b == [b[0]] + b[1..];
      LessIrreflexive(a[0]);
      assert a[0] !in Elements(a[1..]) && a[0] !in Elements(b[1..]);
      assert Elements(a[1..]) == Elements(a) - {a[0]} && Elements(b[1..]) == Elements(b) - {a[0]};
      AscendingIsUnique(a[1..], b[1..]);
    }
  }

  // ------------------------------------------------------------------
  // What a clean value is
  // ------------------------------------------------------------------

  /** One to 63 letters, digits and hyphens, with no hyphen at either end. */
  predicate GoodLabel(s: string) {
    && 1 <= |s| <= 63 && s[0] != '-' && s[|s| - 1] != '-'
    && forall i :: 0 <= i < |s| ==> 'a' <= s[i] <= 'z' || '0' <= s[i] <= '9' || s[i] == '-'
  }

  function DigitOf(c: char): int {
    c as int - '0' as int
  }

  /** A number from 0 to 255 in at most three digits, without a leading zero. */
  predicate GoodOctet(s: string) {
    && 1 <= |s| <= 3 && (forall i :: 0 <= i < |s| ==> '0' <= s[i] <= '9')
    && (|s| == 2 ==> s[0] != '0')
    && (|s| == 3 ==> s[0] != '0' && 100 * DigitOf(s[0]) + 10 * DigitOf(s[1]) + DigitOf(s[2]) <= 255)
  }

  /** Two or more labels, not the four octets of an address. */
  predicate NamesDomain(labels: seq<string>) {
    && |labels| >= 2 && (forall k :: 0 <= k < |labels| ==> GoodLabel(labels[k]))
    && !(|labels| == 4 && forall k :: 0 <= k < |labels| ==> GoodOctet(labels[k]))
  }

  lemma LabelMeans(s: string)
    ensures IsLabel(s) <==> GoodLabel(s)
  {
    assert forall c :: c in s ==> exists i :: 0 <= i < |s| && s[i] == c;
    assert forall i :: 0 <= i < |s| ==> s[i] in s;
  }

  lemma OctetMeans(s: string)
    ensures IsOctet(s) <==> GoodOctet(s)
  {
    assert forall c :: c in s ==> exists i :: 0 <= i < |s| && s[i] == c;
    assert forall i :: 0 <= i < |s| ==> s[i] in s;
    if |s| == 1 {
      OneDigit(s);
    } else if |s| == 2 {
      OneDigit(s[..1]);
      assert Decimal(s) == 10 * Decimal(s[..1]) + DigitOf(s[1]);
    } else if |s| == 3 {
      OneDigit(s[..1]);
      assert s[..2][..1] == s[..1];
      assert Decimal(s[..2]) == 10 * Decimal(s[..1]) + DigitOf(s[1]);
      assert Decimal(s) == 10 * Decimal(s[..2]) + DigitOf(s[2]);
    }
  }

  lemma OneDigit(s: string)
    requires |s| == 1
    ensures Decimal(s) == DigitOf(s[0])
  {
    assert s[..0] == "" && Decimal(s[..0]) == 0;
  }

  lemma PlainLabel(s: string, c: char)
    requires GoodLabel(s) && c in s
    ensures c !in "/:@?#." && !IsSpace(c)
  {
  }

  /** The characters of glued labels are those of the labels, and the dots. */
  lemma {:induction false} GluedCharacters(labels: seq<string>, c: char)
    requires c in Glue(labels, '.') && c != '.'
    ensures exists k :: 0 <= k < |labels| && c in labels[k]
  {
    if |labels| > 1 && c !in labels[0] {
      GluedCharacters(labels[1..], c);
      var k :| 0 <= k < |labels| - 1 && c in labels[1..][k];
      assert labels[k + 1] == labels[1..][k];
    }
  }

  /**
   * A domain is accepted exactly when, without the white space around it,
   * in lower case and without one final dot, it is the labels of a domain
   * joined by dots; then that is what it cleans to.
   */
  lemma DomainCleansExactlyWhen(raw: string)
    ensures var value := TrimSuffix(Lower(TrimSpace(raw)), '.');
            && (CleanDomain(raw).Ok? ==> CleanDomain(raw).value == value)
            && (CleanDomain(raw).Ok? <==> exists labels :: NamesDomain(labels) && value == Glue(labels, '.'))
  {
    var value := TrimSuffix(Lower(TrimSpace(raw)), '.');
    var parts := Split(value, '.');
    SplitGlues(value, '.');
    PartsName(parts);
    if labels :| NamesDomain(labels) && value == Glue(labels, '.') {
      forall k | 0 <= k < |labels| ensures '.' !in labels[k] {
        assert GoodLabel(labels[k]);
      }
      SplitOfGlue(labels, '.');
      forall c | c in value && c in "/:@?#" ensures false {
        GluedCharacters(labels, c);
        var k :| 0 <= k < |labels| && c in labels[k];
        PlainLabel(labels[k], c);
      }
      assert value != "" by {
        assert GoodLabel(labels[0]);
      }
    }
  }

  lemma PartsName(parts: seq<string>)
    ensures NamesDomain(parts) <==>
              && |parts| >= 2 && (forall part :: part in parts ==> IsLabel(part))
              && !(|parts| == 4 && forall part :: part in parts ==> IsOctet(part))
  {
    forall k | 0 <= k < |parts|
      ensures IsLabel(parts[k]) <==> GoodLabel(parts[k])
      ensures IsOctet(parts[k]) <==> GoodOctet(parts[k])
    {
      LabelMeans(parts[k]);
      OctetMeans(parts[k]);
    }
    assert forall k :: 0 <= k < |parts| ==> parts[k] in parts;
  }

  /** What the other errors of a domain mean: no dot in an otherwise plain name, and everything else. */
  lemma DomainErrorMeans(raw: string)
    requires CleanDomain(raw).Err?
    ensures var value := TrimSuffix(Lower(TrimSpace(raw)), '.');
            CleanDomain(raw).error ==
              if value != "" && forall i :: 0 <= i < |value| ==> value[i] !in "/:@?#." then NoPublicSuffix(raw)
              else InvalidDomain(raw)
  {
    var value := TrimSuffix(Lower(TrimSpace(raw)), '.');
    SplitGlues(value, '.');
    if |Split(value, '.')| >= 2 {
      var parts := Split(value, '.');
      assert value[|parts[0]|] == '.';
    } else {
      assert '.' !in Split(value, '.')[0];
    }
  }

  /** A text value is its words with one blank between them, if that has between 1 and 100 characters. */
  lemma TextCleansExactlyWhen(raw: string)
    ensures var value := Join(Fields(raw));
            CleanText(raw) == if 1 <= |value| <= 100 then Ok(value) else Err(InvalidLength)
    ensures |Join(Fields(raw))| == JoinedLength(Fields(raw))
  {
    JoinedLengthMeans(Fields(raw));
  }

  function JoinedLength(words: seq<string>): int {
    if words == [] then 0 else |words[0]| + (if |words| == 1 then 0 else 1) + JoinedLength(words[1..])
  }

  lemma {:induction false} JoinedLengthMeans(words: seq<string>)
    ensures |Join(words)| == JoinedLength(words)
  {
    if |words| > 1 {
      JoinedLengthMeans(words[1..]);
    }
  }

  /** A file type, without the white space around it, one leading dot, and capitals, is one to ten letters and digits. */
  lemma ExtensionCleansExactlyWhen(raw: string)
    ensures var value := Lower(TrimPrefix(TrimSpace(raw), '.'));
            CleanExtension(raw) ==
              if 1 <= |value| <= 10 && forall i :: 0 <= i < |value| ==> 'a' <= value[i] <= 'z' || '0' <= value[i] <= '9'
              then Ok(value) else Err(InvalidFileType(raw))
  {
    var value := Lower(TrimPrefix(TrimSpace(raw), '.'));
    assert forall c :: c in value ==> exists i :: 0 <= i < |value| && value[i] == c;
    assert forall i :: 0 <= i < |value| ==> value[i] in value;
  }

  // ------------------------------------------------------------------
  // What a normalised list means
  // ------------------------------------------------------------------

  /** A list is collected exactly when every value can be cleaned: no value twice, none lost, none invented. */
  lemma {:induction false} CollectMeans(kind: Kind, values: seq<string>)
    ensures Collect(kind, values).Ok? <==> forall raw :: raw in values ==> Clean(kind, raw).Ok?
    ensures Collect(kind, values).Ok? ==>
              Distinct(Collect(kind, values).value) && Elements(Collect(kind, values).value) == Cleaned(kind, values)
  {
    if values != [] {
      var n := |values| - 1;
      CollectMeans(kind, values[..n]);
      assert values == values[..n] + [values[n]];
      if Collect(kind, values).Ok? {
        var kept, value := Collect(kind, values[..n]).value, Clean(kind, values[n]).value;
        assert Cleaned(kind, values) == Cleaned(kind, values[..n]) + {value};
        assert value in kept <==> value in Elements(kept);
      }
    }
  }

  /** Values are kept in the order in which they first occur: some prefix has the one and not yet the other. */
  lemma {:induction false} FirstOccurrenceOrder(kind: Kind, values: seq<string>, i: nat, j: nat) returns (a: nat)
    requires Collect(kind, values).Ok? && i < j < |Collect(kind, values).value|
    ensures a <= |values|
    ensures Collect(kind, values).value[i] in Cleaned(kind, values[..a])
    ensures Collect(kind, values).value[j] !in Cleaned(kind, values[..a])
  {
    hide Clean, Cleaned;
    var n := |values| - 1;
    var before := values[..n];
    var kept := Collect(kind, before).value;
    if j < |kept| {
      a := FirstOccurrenceOrder(kind, before, i, j);
      assert values[..a] == before[..a];
    } else {
      a := n;
      CollectMeans(kind, before);
      assert kept[i] in Elements(kept);
    }
  }

  lemma {:induction false} CleanListIsKept(kind: Kind, values: seq<string>)
    requires Distinct(values) && forall v :: v in values ==> Clean(kind, v) == Ok(v)
    ensures Collect(kind, values) == Ok(values)
  {
    hide Clean;
    if values != [] {
      var n := |values| - 1;
      var before := values[..n];
      assert Distinct(before) && values[n] !in before;
      CleanListIsKept(kind, before);
      assert Clean(kind, values[n]) == Ok(values[n]);
      assert before + [values[n]] == values;
    }
  }

  lemma AscendingIsDistinct(s: seq<string>)
    requires Ascending(s)
    ensures Distinct(s)
  {
    forall i, j | 0 <= i < j < |s| ensures s[i] != s[j] {
      LessIrreflexive(s[i]);
    }
  }

  /** A list normalises exactly when it has at most 20 values, 10 for file types, and every value can be cleaned. */
  lemma ListNormalizesExactlyWhen(kind: Kind, values: seq<string>)
    ensures NormalizeList(kind, values).Ok? <==>
              |values| <= (if kind == Extensions then 10 else 20) && forall raw :: raw in values ==> Clean(kind, raw).Ok?
  {
    CollectMeans(kind, values);
  }

  lemma NormalizedListMeans(kind: Kind, values: seq<string>)
    requires NormalizeList(kind, values).Ok?
    ensures var list := NormalizeList(kind, values).value;
            && Distinct(list) && Elements(list) == Cleaned(kind, values) && |list| <= |values|
            && (kind != Texts ==> Ascending(list))
  {
    CollectMeans(kind, values);
    CollectNoLonger(kind, values);
    if kind != Texts {
      SortSorts(Collect(kind, values).value);
      AscendingIsDistinct(Sort(Collect(kind, values).value));
    }
  }

  lemma {:induction false} CollectNoLonger(kind: Kind, values: seq<string>)
    requires Collect(kind, values).Ok?
    ensures |Collect(kind, values).value| <= |values|
  {
    if values != [] {
      CollectNoLonger(kind, values[..|values| - 1]);
    }
  }

  /** The same values: for domains and file types in any order, number and case, for texts by first occurrence. */
  predicate SameList(kind: Kind, a: seq<string>, b: seq<string>) {
    if kind == Texts then Collect(kind, a) == Collect(kind, b) else Cleaned(kind, a) == Cleaned(kind, b)
  }

  lemma SameListExactlyWhen(kind: Kind, a: seq<string>, b: seq<string>)
    requires NormalizeList(kind, a).Ok? && NormalizeList(kind, b).Ok?
    ensures NormalizeList(kind, a) == NormalizeList(kind, b) <==> SameList(kind, a, b)
  {
    if kind != Texts {
      NormalizedListMeans(kind, a);
      NormalizedListMeans(kind, b);
      if Cleaned(kind, a) == Cleaned(kind, b) {
        AscendingIsUnique(NormalizeList(kind, a).value, NormalizeList(kind, b).value);
      }
    }
  }

  ghost function Folded(values: seq<string>): set<string> {
    set raw | raw in values :: Lower(raw)
  }

  /** Reordering, repeating or re-casing domains and file types changes neither their validity nor their values. */
  lemma FoldedListsAreSame(kind: Kind, a: seq<string>, b: seq<string>)
    requires kind != Texts && Folded(a) == Folded(b)
    ensures Cleaned(kind, a) == Cleaned(kind, b)
    ensures Collect(kind, a).Ok? <==> Collect(kind, b).Ok?
  {
    FoldedListIsWithin(kind, a, b);
    FoldedListIsWithin(kind, b, a);
    CollectMeans(kind, a);
    CollectMeans(kind, b);
  }

  lemma FoldedListIsWithin(kind: Kind, a: seq<string>, b: seq<string>)
    requires kind != Texts && Folded(a) <= Folded(b)
    ensures Cleaned(kind, a) <= Cleaned(kind, b)
    ensures forall raw :: raw in a && Clean(kind, raw).Err? ==> exists other :: other in b && Clean(kind, other).Err?
  {
    forall raw | raw in a ensures exists other :: other in b && Lower(other) == Lower(raw) {
      assert Lower(raw) in Folded(a);
    }
    forall raw, other | raw in a && other in b && Lower(other) == Lower(raw)
      ensures Clean(kind, raw).Ok? <==> Clean(kind, other).Ok?
      ensures Clean(kind, raw).Ok? ==> Clean(kind, other) == Clean(kind, raw)
    {
      CleanIgnoresCase(kind, raw, other);
    }
  }

  lemma NormalizeListTwice(kind: Kind, values: seq<string>)
    requires NormalizeList(kind, values).Ok?
    ensures NormalizeList(kind, NormalizeList(kind, values).value) == NormalizeList(kind, values)
  {
    var list := NormalizeList(kind, values).value;
    NormalizedListMeans(kind, values);
    forall v | v in list ensures Clean(kind, v) == Ok(v) {
      assert v in Elements(list);
      var raw :| raw in values && Clean(kind, raw) == Ok(v);
      CleanTwice(kind, raw);
    }
    CleanListIsKept(kind, list);
    if kind != Texts {
      SortSorts(list);
      AscendingIsUnique(Sort(list), list);
    }
  }

  // ------------------------------------------------------------------
  // Requests
  // ------------------------------------------------------------------

  lemma {:induction false} ConflictMeans(included: seq<string>, excluded: seq<string>)
    ensures Conflict(included, excluded).Ok? <==> forall d :: d in included ==> d !in excluded
    ensures Conflict(included, excluded).Err? ==>
              exists k :: 0 <= k < |included| && included[k] in excluded && (forall j :: 0 <= j < k ==> included[j] !in excluded)
                          && Conflict(included, excluded).error == Failure(IncludeDomains, ConflictingDomain(included[k]))
  {
    if included != [] {
      ConflictMeans(included[1..], excluded);
      assert included == [included[0]] + included[1..];
      if included[0] !in excluded && Conflict(included, excluded).Err? {
        var k :| 0 <= k < |included| - 1 && included[1..][k] in excluded && (forall j :: 0 <= j < k ==> included[1..][j] !in excluded)
                 && Conflict(included, excluded).error == Failure(IncludeDomains, ConflictingDomain(included[1..][k]));
        assert included[k + 1] in excluded;
        assert forall j :: 0 < j < k + 1 ==> included[j] == included[1..][j - 1];
      }
    }
  }

  lemma NormalizeFiltersTwice(filters: Filters)
    requires NormalizedFilters(filters).Ok?
    ensures NormalizedFilters(NormalizedFilters(filters).value) == NormalizedFilters(filters)
  {
    NormalizeListTwice(Domains, filters.included);
    NormalizeListTwice(Domains, filters.excluded);
  }

  lemma NormalizeOptionsTwice(options: QueryOptions)
    requires NormalizedOptions(options).Ok?
    ensures NormalizedOptions(NormalizedOptions(options).value) == NormalizedOptions(options)
  {
    NormalizeListTwice(Texts, options.exactPhrases);
    NormalizeListTwice(Texts, options.anyTerms);
    NormalizeListTwice(Texts, options.excludeTerms);
    NormalizeListTwice(Texts, options.titleTerms);
    NormalizeListTwice(Extensions, options.fileTypes);
  }

  /** Normalisation is idempotent. */
  lemma NormalizeTwice(request: Request)
    requires Normalized(request).Ok?
    ensures Normalized(Normalized(request).value) == Normalized(request)
  {
    NormalizeFiltersTwice(request.filters);
    NormalizeOptionsTwice(request.options);
  }

  /** Valid filters never both include and exclude a domain; they are refused exactly when they would, or a list fails. */
  lemma FiltersNormalizeExactlyWhen(filters: Filters)
    ensures NormalizedFilters(filters).Ok? <==>
              && NormalizeList(Domains, filters.included).Ok? && NormalizeList(Domains, filters.excluded).Ok?
              && Cleaned(Domains, filters.included) !! Cleaned(Domains, filters.excluded)
  {
    var included, excluded := NormalizeList(Domains, filters.included), NormalizeList(Domains, filters.excluded);
    if included.Ok? && excluded.Ok? {
      NormalizedListMeans(Domains, filters.included);
      NormalizedListMeans(Domains, filters.excluded);
      ConflictMeans(included.value, excluded.value);
      ApartExactlyWhen(included.value, excluded.value);
    }
  }

  lemma ApartExactlyWhen(a: seq<string>, b: seq<string>)
    ensures Elements(a) !! Elements(b) <==> forall x :: x in a ==> x !in b
  {
    assert forall x :: x in a ==> x in Elements(a);
    assert forall x :: x in b ==> x in Elements(b);
  }

  /** The smallest domain that is both included and excluded. */
  ghost predicate SmallestConflict(filters: Filters, d: string) {
    && d in Cleaned(Domains, filters.included) && d in Cleaned(Domains, filters.excluded)
    && forall e :: e in Cleaned(Domains, filters.included) && e in Cleaned(Domains, filters.excluded) ==> e == d || Less(d, e)
  }

  lemma ConflictIsSmallest(filters: Filters)
    requires NormalizeList(Domains, filters.included).Ok? && NormalizeList(Domains, filters.excluded).Ok?
    requires NormalizedFilters(filters).Err?
    ensures exists d :: SmallestConflict(filters, d) && NormalizedFilters(filters) == Err(Failure(IncludeDomains, ConflictingDomain(d)))
  {
    var included, excluded := NormalizeList(Domains, filters.included).value, NormalizeList(Domains, filters.excluded).value;
    NormalizedListMeans(Domains, filters.included);
    NormalizedListMeans(Domains, filters.excluded);
    ConflictMeans(included, excluded);
    var k :| 0 <= k < |included| && included[k] in excluded && (forall j :: 0 <= j < k ==> included[j] !in excluded)
             && Conflict(included, excluded).error == Failure(IncludeDomains, ConflictingDomain(included[k]));
    assert forall d :: d in Elements(included) <==> d in included;
    assert forall d :: d in Elements(excluded) <==> d in excluded;
    assert SmallestConflict(filters, included[k]);
  }

  /** The lists of a request in the order in which they are checked. */
  function ListAt(request: Request, k: nat): (Field, Kind, seq<string>)
    requires k < 7
  {
    match k
    case 0 => (IncludeDomains, Domains, request.filters.included)
    case 1 => (ExcludeDomains, Domains, request.filters.excluded)
    case 2 => (ExactPhrases, Texts, request.options.exactPhrases)
    case 3 => (AnyTerms, Texts, request.options.anyTerms)
    case 4 => (ExcludeTerms, Texts, request.options.excludeTerms)
    case 5 => (TitleTerms, Texts, request.options.titleTerms)
    case _ => (FileTypes, Extensions, request.options.fileTypes)
  }

  predicate ListFails(request: Request, k: nat)
    requires k < 7
  {
    NormalizeList(ListAt(request, k).1, ListAt(request, k).2).Err?
  }

  /**
   * The failure of a request is that of its first list that cannot be
   * normalised; a domain both included and excluded comes after the two
   * domain lists and before the others.
   */
  lemma FirstFailureIsReported(request: Request, k: nat)
    requires k < 7 && ListFails(request, k) && forall j :: 0 <= j < k ==> !ListFails(request, j)
    requires k >= 2 ==> Cleaned(Domains, request.filters.included) !! Cleaned(Domains, request.filters.excluded)
    ensures var (field, kind, values) := ListAt(request, k);
            Normalized(request) == Err(Failure(field, NormalizeList(kind, values).error))
  {
    hide NormalizeList, Cleaned;
    FiltersNormalizeExactlyWhen(request.filters);
    assert k > 0 ==> !ListFails(request, 0);
    assert k > 1 ==> !ListFails(request, 1);
    assert k > 2 ==> !ListFails(request, 2);
    assert k > 3 ==> !ListFails(request, 3);
    assert k > 4 ==> !ListFails(request, 4);
    assert k > 5 ==> !ListFails(request, 5);
  }

  /** A request normalises exactly when its filters and all its other lists do, and then nothing but those lists changes. */
  lemma RequestNormalizesExactlyWhen(request: Request)
    ensures Normalized(request).Ok? <==>
              (forall k :: 0 <= k < 7 ==> !ListFails(request, k))
              && Cleaned(Domains, request.filters.included) !! Cleaned(Domains, request.filters.excluded)
    ensures Normalized(request).Ok? ==>
              var r := Normalized(request).value;
              && r == request.(filters := r.filters, options := r.options)
              && forall k :: 0 <= k < 7 ==> Ok(ListAt(r, k).2) == NormalizeList(ListAt(request, k).1, ListAt(request, k).2)
  {
    hide NormalizeList, Cleaned;
    FiltersNormalizeExactlyWhen(request.filters);
    if forall k :: 0 <= k < 7 ==> !ListFails(request, k) {
      assert !ListFails(request, 0) && !ListFails(request, 1) && !ListFails(request, 2) && !ListFails(request, 3)
             && !ListFails(request, 4) && !ListFails(request, 5) && !ListFails(request, 6);
    }
  }

  /** Normalising a request keeps its fingerprint. */
  lemma FingerprintSurvivesNormalize(request: Request)
    requires Normalized(request).Ok?
    ensures Fingerprint(Normalized(request).value) == Fingerprint(request)
  {
    NormalizeTwice(request);
  }

  /**
   * The same search: equal scalar fields, the same domains and file types in
   * whatever order, number and case, and the same text values in order of
   * first occurrence.
   */
  predicate SameSearch(a: Request, b: Request) {
    && a.query == b.query && a.providers == b.providers && a.limit == b.limit && a.region == b.region
    && SameFilters(a.filters, b.filters)
    && SameOptions(a.options, b.options)
  }

  predicate SameFilters(a: Filters, b: Filters) {
    && SameList(Domains, a.included, b.included)
    && SameList(Domains, a.excluded, b.excluded)
  }

  predicate SameOptions(a: QueryOptions, b: QueryOptions) {
    && SameList(Texts, a.exactPhrases, b.exactPhrases)
    && SameList(Texts, a.anyTerms, b.anyTerms)
    && SameList(Texts, a.excludeTerms, b.excludeTerms)
    && SameList(Texts, a.titleTerms, b.titleTerms)
    && SameList(Extensions, a.fileTypes, b.fileTypes)
  }

  lemma SameFiltersExactlyWhen(a: Filters, b: Filters)
    requires NormalizedFilters(a).Ok? && NormalizedFilters(b).Ok?
    ensures NormalizedFilters(a) == NormalizedFilters(b) <==> SameFilters(a, b)
  {
    SameListExactlyWhen(Domains, a.included, b.included);
    SameListExactlyWhen(Domains, a.excluded, b.excluded);
  }

  lemma SameOptionsExactlyWhen(a: QueryOptions, b: QueryOptions)
    requires NormalizedOptions(a).Ok? && NormalizedOptions(b).Ok?
    ensures NormalizedOptions(a) == NormalizedOptions(b) <==> SameOptions(a, b)
  {
    SameListExactlyWhen(Texts, a.exactPhrases, b.exactPhrases);
    SameListExactlyWhen(Texts, a.anyTerms, b.anyTerms);
    SameListExactlyWhen(Texts, a.excludeTerms, b.excludeTerms);
    SameListExactlyWhen(Texts, a.titleTerms, b.titleTerms);
    SameListExactlyWhen(Extensions, a.fileTypes, b.fileTypes);
  }

  /** Two valid requests have the same fingerprint exactly when they ask for the same search. */
  lemma SameFingerprintExactlyWhen(a: Request, b: Request)
    requires Normalized(a).Ok? && Normalized(b).Ok?
    ensures Fingerprint(a) == Fingerprint(b) <==> SameSearch(a, b)
  {
    SameFiltersExactlyWhen(a.filters, b.filters);
    SameOptionsExactlyWhen(a.options, b.options);
  }

  /** Requests that cannot be normalised have the same fingerprint exactly when all their public fields agree. */
  lemma InvalidFingerprints(a: Request, b: Request)
    requires Normalized(a).Err? && Normalized(b).Err?
    ensures Fingerprint(a) == Fingerprint(b) <==>
              && a.query == b.query && a.providers == b.providers && a.limit == b.limit && a.region == b.region
              && a.filters == b.filters && a.options == b.options
  {
  }

  // ------------------------------------------------------------------
  // The normalisers
  // ------------------------------------------------------------------

  lemma {:induction false} CollectStops(kind: Kind, values: seq<string>, i: nat)
    requires i <= |values| && Collect(kind, values[..i]).Err?
    ensures Collect(kind, values) == Collect(kind, values[..i])
  {
    if i < |values| {
      var n := |values| - 1;
      assert values[..n][..i] == values[..i];
      CollectStops(kind, values[..n], i);
    } else {
      assert values[..i] == values;
    }
  }

  lemma CollectStep(kind: Kind, values: seq<string>, i: nat)
    requires i < |values| && Collect(kind, values[..i]).Ok?
    ensures Clean(kind, values[i]).Err? ==> Collect(kind, values) == Err(Clean(kind, values[i]).error)
    ensures Clean(kind, values[i]).Ok? ==>
              var kept, value := Collect(kind, values[..i]).value, Clean(kind, values[i]).value;
              Collect(kind, values[..i + 1]) == Ok(if value in kept then kept else kept + [value])
  {
    assert values[..i + 1][..i] == values[..i];
    if Clean(kind, values[i]).Err? {
      CollectStops(kind, values, i + 1);
    }
  }

  /** The error reported is that of the first value that cannot be cleaned, unless the list is too long. */
  lemma FirstErrorIsReported(kind: Kind, values: seq<string>, i: nat)
    requires i < |values| && Clean(kind, values[i]).Err?
    requires forall j :: 0 <= j < i ==> Clean(kind, values[j]).Ok?
    ensures NormalizeList(kind, values) ==
            Err(if |values| > (if kind == Extensions then 10 else 20) then TooManyValues else Clean(kind, values[i]).error)
  {
    CollectMeans(kind, values[..i]);
    CollectStep(kind, values, i);
  }

  method CheckDomain(raw: string) returns (r: Result<string, Problem>)
    ensures r == CleanDomain(raw)
  {
    var value := TrimSuffix(Lower(TrimSpace(raw)), '.');
    if value == "" || HasAddressSyntax(value) || IsIPv4(value) {
      return Err(InvalidDomain(raw));
    }
    var parts := Split(value, '.');
    if |parts| < 2 {
      return Err(NoPublicSuffix(raw));
    }
    for j := 0 to |parts|
      invariant forall k :: 0 <= k < j ==> IsLabel(parts[k])
    {
      if !IsLabel(parts[j]) {
        return Err(InvalidDomain(raw));
      }
    }
    return Ok(value);
  }

  method NormalizeDomains(values: seq<string>) returns (r: Result<seq<string>, Problem>)
    ensures r == NormalizeList(Domains, values)
  {
    hide CleanDomain;
    if |values| > 20 {
      return Err(TooManyValues);
    }
    var result: seq<string>, seen: set<string> := [], {};
    for i := 0 to |values|
      invariant Collect(Domains, values[..i]) == Ok(result) && seen == Elements(result)
    {
      CollectStep(Domains, values, i);
      var checked := CheckDomain(values[i]);
      if checked.Err? {
        return Err(checked.error);
      }
      if checked.value !in seen {
        result, seen := result + [checked.value], seen + {checked.value};
      }
    }
    assert values[..|values|] == values;
    return Ok(Sort(result));
  }

  method NormalizeTextValues(values: seq<string>) returns (r: Result<seq<string>, Problem>)
    ensures r == NormalizeList(Texts, values)
  {
    if |values| > 20 {
      return Err(TooManyValues);
    }
    var result: seq<string>, seen: set<string> := [], {};
    for i := 0 to |values|
      invariant Collect(Texts, values[..i]) == Ok(result) && seen == Elements(result)
    {
      CollectStep(Texts, values, i);
      var value := Join(Fields(values[i]));
      if value == "" || |value| > 100 {
        return Err(InvalidLength);
      }
      if value !in seen {
        result, seen := result + [value], seen + {value};
      }
    }
    assert values[..|values|] == values;
    return Ok(result);
  }

  method NormalizeFileTypes(values: seq<string>) returns (r: Result<seq<string>, Problem>)
    ensures r == NormalizeList(Extensions, values)
  {
    if |values| > 10 {
      return Err(TooManyValues);
    }
    var result: seq<string>, seen: set<string> := [], {};
    for i := 0 to |values|
      invariant Collect(Extensions, values[..i]) == Ok(result) && seen == Elements(result)
    {
      CollectStep(Extensions, values, i);
      var raw := values[i];
      var value := Lower(TrimPrefix(TrimSpace(raw), '.'));
      if !IsExtension(value) {
        return Err(InvalidFileType(raw));
      }
      if value !in seen {
        result, seen := result + [value], seen + {value};
      }
    }
    assert values[..|values|] == values;
    return Ok(Sort(result));
  }

  /** Looks for the first included domain among the excluded ones. */
  method CheckConflict(included: seq<string>, excluded: seq<string>) returns (r: Result<(), Failure>)
    ensures r == Conflict(included, excluded)
  {
    for i := 0 to |included|
      invariant Conflict(included[i..], excluded) == Conflict(included, excluded)
    {
      if included[i] in excluded {
        return Err(Failure(IncludeDomains, ConflictingDomain(included[i])));
      }
    }
    return Ok(());
  }

  method NormalizeFilters(filters: Filters) returns (r: Result<Filters, Failure>)
    ensures r == NormalizedFilters(filters)
  {
    var list := NormalizeDomains(filters.included);
    var included :- InField(IncludeDomains, list);
    list := NormalizeDomains(filters.excluded);
    var excluded :- InField(ExcludeDomains, list);
    var apart := CheckConflict(included, excluded);
    var _ :- apart;
    return Ok(Filters(included, excluded));
  }

  method NormalizeOptions(options: QueryOptions) returns (r: Result<QueryOptions, Failure>)
    ensures r == NormalizedOptions(options)
  {
    var list := NormalizeTextValues(options.exactPhrases);
    var exactPhrases :- InField(ExactPhrases, list);
    list := NormalizeTextValues(options.anyTerms);
    var anyTerms :- InField(AnyTerms, list);
    list := NormalizeTextValues(options.excludeTerms);
    var excludeTerms :- InField(ExcludeTerms, list);
    list := NormalizeTextValues(options.titleTerms);
    var titleTerms :- InField(TitleTerms, list);
    list := NormalizeFileTypes(options.fileTypes);
    var fileTypes :- InField(FileTypes, list);
    return Ok(QueryOptions(exactPhrases, anyTerms, excludeTerms, titleTerms, fileTypes));
  }

  /** Validates and canonicalises the advanced search fields. */
  method Normalize(request: Request) returns (r: Result<Request, Failure>)
    ensures r == Normalized(request)
  {
    var filters := NormalizeFilters(request.filters);
    var f :- filters;
    var options := NormalizeOptions(request.options);
    var o :- options;
    return Ok(request.(filters := f, options := o));
  }
}
