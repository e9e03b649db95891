/** The subject-alternative-name extension both issuance routes build from the
    request's `extensions` parameter. An explicit `subjectAlternativeName` list
    is handed, minus its empty entries, to r509's general-name parser; a
    `dNSNames` list becomes a GeneralNames object grown one dNSName item at a
    time. The extension is emitted only when some name survives. */
module SanBuilder {
  import opened Common
  import opened RubyString

  /** The GeneralName choice `dNSName [2]` of section 4.2.1.6 of RFC 5280. */
  const DNS_NAME_TAG: nat := 2

  /** The `extensions` request parameter: a hash that may hold either list. */
  datatype ExtensionParams = ExtensionParams(
    subjectAlternativeName: Option<seq<string>>,
    dnsNames: Option<seq<string>>)

  datatype GeneralName = GeneralName(tag: nat, value: string)

  /** The value given to the SubjectAlternativeName extension: either the
      strings handed to `R509::ASN1.general_name_parser` (whose parsing is
      not part of this model), or the items of a GeneralNames object. */
  datatype SanValue =
    | ParsedGeneralNames(names: seq<string>)
    | BuiltGeneralNames(items: seq<GeneralName>)

  datatype Extension = SubjectAlternativeName(value: SanValue)

  /** `R509::ASN1::GeneralNames`, as far as the handlers use it: a list of
      items that `create_item` appends to. */
  class GeneralNames {
    var names: seq<GeneralName>

    constructor ()
      ensures names == []
    {
      names := [];
    }

    method CreateItem(tag: nat, value: string)
      modifies this
      ensures names == old(names) + [GeneralName(tag, value)]
    {
      names := names + [GeneralName(tag, value)];
    }
  }

  /** `select { |name| not name.empty? }`: the non-empty entries, in order. */
  function NonEmpty(names: seq<string>): (r: seq<string>)
    ensures |r| <= |names|
    ensures forall n :: n in r <==> n in names && n != ""
  {
    if names == [] then []
    else if names[0] == "" then NonEmpty(names[1..])
    else [names[0]] + NonEmpty(names[1..])
  }

  /** The dNSName items created for the selected entries: each entry
      stripped, tagged 2, in the order of the list. */
  function DnsGeneralNames(names: seq<string>): (r: seq<GeneralName>)
    ensures |r| == |names|
    ensures forall i :: 0 <= i < |r| ==> r[i] == GeneralName(DNS_NAME_TAG, Strip(names[i]))
  {
    if names == [] then []
    else [GeneralName(DNS_NAME_TAG, Strip(names[0]))] + DnsGeneralNames(names[1..])
  }

  /** The `extensions` list a handler passes to `build_and_enforce`. */
  function SanExtensions(ext: Option<ExtensionParams>): (r: seq<Extension>)
    ensures |r| <= 1
    ensures forall e :: e in r ==>
      || (e.value.ParsedGeneralNames? && e.value.names != [] && forall n :: n in e.value.names ==> n != "")
      || (e.value.BuiltGeneralNames? && e.value.items != [] && forall g :: g in e.value.items ==> g.tag == DNS_NAME_TAG)
  {
    if ext.Some? && ext.value.subjectAlternativeName.Some? then
      var sanNames := NonEmpty(ext.value.subjectAlternativeName.value);
      if sanNames != [] then [SubjectAlternativeName(ParsedGeneralNames(sanNames))] else []
    else if ext.Some? && ext.value.dnsNames.Some? then
      var items := DnsGeneralNames(NonEmpty(ext.value.dnsNames.value));
      if items != [] then [SubjectAlternativeName(BuiltGeneralNames(items))] else []
    else
      []
  }

  /** The list the handler draws names from: `subjectAlternativeName` when
      that key is present, otherwise `dNSNames`, otherwise nothing. */
  function ChosenNames(ext: Option<ExtensionParams>): seq<string> {
    if ext.Some? && ext.value.subjectAlternativeName.Some? then ext.value.subjectAlternativeName.value
    else if ext.Some? && ext.value.dnsNames.Some? then ext.value.dnsNames.value
    else []
  }

  /** The items of two lists of names are the items of each, in order. */
  lemma {:induction false} DnsGeneralNamesAppend(a: seq<string>, b: seq<string>)
    ensures DnsGeneralNames(a + b) == DnsGeneralNames(a) + DnsGeneralNames(b)
  {
    if a != [] {
      assert (a + b)[1..] == a[1..] + b;
      DnsGeneralNamesAppend(a[1..], b);
    } else {
      assert a + b == b;
    }
  }

  /** Extending a prefix of the selected names by one entry adds one item. */
  lemma DnsGeneralNamesSnoc(names: seq<string>, i: nat)
    requires i < |names|
    ensures DnsGeneralNames(names[..i + 1])
         == DnsGeneralNames(names[..i]) + [GeneralName(DNS_NAME_TAG, Strip(names[i]))]
  {
    var prefix, last := names[..i], names[i];
    assert names[..i + 1] == prefix + [last];
    DnsGeneralNamesAppend(prefix, [last]);
    assert [last][1..] == [];
    assert DnsGeneralNames([last]) == [GeneralName(DNS_NAME_TAG, Strip(last))] + DnsGeneralNames([]);
  }

  /** The `each`/`create_item` loop over the selected `dNSNames` entries: a
      new GeneralNames object that grows by one dNSName item per entry. */
  method CreateDnsItems(selected: seq<string>) returns (sanNames: GeneralNames)
    ensures fresh(sanNames)
    ensures sanNames.names == DnsGeneralNames(selected)
  {
    sanNames := new GeneralNames();
    var i := 0;
    while i < |selected|
      invariant 0 <= i <= |selected|
      invariant sanNames.names == DnsGeneralNames(selected[..i])
    {
      DnsGeneralNamesSnoc(selected, i);
      sanNames.CreateItem(DNS_NAME_TAG, Strip(selected[i]));
      i := i + 1;
    }
    assert selected[..i] == selected;
  }

  /** The extension building as the handlers write it: an `extensions` array
      that is pushed to, and for `dNSNames` a GeneralNames object built by
      `CreateDnsItems`. */
  method BuildSanExtensions(ext: Option<ExtensionParams>) returns (extensions: seq<Extension>)
    ensures extensions == SanExtensions(ext)
  {
    extensions := [];
    if ext.Some? && ext.value.subjectAlternativeName.Some? {
      var sanNames := NonEmpty(ext.value.subjectAlternativeName.value);
      if sanNames != [] {
        extensions := extensions + [SubjectAlternativeName(ParsedGeneralNames(sanNames))];
      }
    } else if ext.Some? && ext.value.dnsNames.Some? {
      var sanNames := CreateDnsItems(NonEmpty(ext.value.dnsNames.value));
      if sanNames.names != [] {
        extensions := extensions + [SubjectAlternativeName(BuiltGeneralNames(sanNames.names))];
      }
    }
  }

  /** Filtering leaves nothing exactly when every entry is empty. */
  lemma {:induction false} NonEmptyIsEmpty(names: seq<string>)
    ensures NonEmpty(names) == [] <==> forall n :: n in names ==> n == ""
  {
    if names != [] {
      assert names[0] in names;
      NonEmptyIsEmpty(names[1..]);
      if names[0] == "" {
        assert forall n :: n in names ==> n == names[0] || n in names[1..];
      }
    }
  }

  /** Filtering distributes over concatenation: entries keep their relative
      order, and each entry's fate depends on that entry alone. */
  lemma {:induction false} NonEmptyAppend(a: seq<string>, b: seq<string>)
    ensures NonEmpty(a + b) == NonEmpty(a) + NonEmpty(b)
  {
    if a != [] {
      assert (a + b)[1..] == a[1..] + b;
      NonEmptyAppend(a[1..], b);
    } else {
      assert a + b == b;
    }
  }

  /** There is at most one extension, and there is one exactly when the
      chosen list holds a non-empty entry. */
  lemma SanExtensionCount(ext: Option<ExtensionParams>)
    ensures |SanExtensions(ext)| <= 1
    ensures |SanExtensions(ext)| == 1 <==> exists n :: n in ChosenNames(ext) && n != ""
  {
    NonEmptyIsEmpty(ChosenNames(ext));
  }

  /** A `subjectAlternativeName` key hides `dNSNames` entirely, also when
      every one of its entries is empty. */
  lemma SanKeyShadowsDnsNames(san: seq<string>, dns: Option<seq<string>>)
    ensures SanExtensions(Some(ExtensionParams(Some(san), dns)))
         == SanExtensions(Some(ExtensionParams(Some(san), None)))
    ensures (forall n :: n in san ==> n == "") ==> SanExtensions(Some(ExtensionParams(Some(san), dns))) == []
  {
    NonEmptyIsEmpty(san);
  }

  /** The explicit list is handed on unstripped, minus its empty entries, in
      order. */
  lemma SanListPassedThrough(san: seq<string>, dns: Option<seq<string>>)
    requires exists n :: n in san && n != ""
    ensures SanExtensions(Some(ExtensionParams(Some(san), dns)))
         == [SubjectAlternativeName(ParsedGeneralNames(NonEmpty(san)))]
  {
    var n :| n in san && n != "";
    assert n in NonEmpty(san);
  }

  /** Without a `subjectAlternativeName` key, each non-empty `dNSNames` entry
      becomes, in order, one dNSName item holding the stripped entry. */
  lemma DnsNamesBecomeStrippedItems(dns: seq<string>, i: nat)
    requires i < |NonEmpty(dns)|
    ensures var r := SanExtensions(Some(ExtensionParams(None, Some(dns))));
      && r == [SubjectAlternativeName(BuiltGeneralNames(DnsGeneralNames(NonEmpty(dns))))]
      && |r[0].value.items| == |NonEmpty(dns)|
      && r[0].value.items[i] == GeneralName(DNS_NAME_TAG, Strip(NonEmpty(dns)[i]))
  {
  }

  /** Emptiness is tested before `strip`: an entry made only of whitespace is
      kept, and yields a dNSName whose value is empty. */
  lemma {:induction false} WhitespaceEntryYieldsEmptyDnsName(w: string)
    requires w != [] && forall k :: 0 <= k < |w| ==> IsSpace(w[k])
    ensures SanExtensions(Some(ExtensionParams(None, Some([w]))))
         == [SubjectAlternativeName(BuiltGeneralNames([GeneralName(DNS_NAME_TAG, "")]))]
  {
    assert [w][1..] == [];
    assert NonEmpty([w]) == [w];
    StripAllStripped(w);
    assert DnsGeneralNames([w]) == [GeneralName(DNS_NAME_TAG, "")];
  }

  /** A list of empty entries, or no list at all, gives no extension. */
  lemma {:induction false} NoNamesNoExtension(dns: seq<string>)
    requires forall n :: n in dns ==> n == ""
    ensures SanExtensions(Some(ExtensionParams(None, Some(dns)))) == []
    ensures SanExtensions(Some(ExtensionParams(None, None))) == []
    ensures SanExtensions(None) == []
  {
    NonEmptyIsEmpty(dns);
  }

  /** A trimmed name, an empty entry and a space-padded trimmed name yield
      exactly two items: the first name and the second without its padding. */
  lemma {:induction false} DnsNamesDropEmptyAndStrip(a: string, b: string)
    requires a != [] && !IsStripped(a[0]) && !IsStripped(a[|a| - 1])
    requires b != [] && !IsStripped(b[0]) && !IsStripped(b[|b| - 1])
    ensures SanExtensions(Some(ExtensionParams(None, Some([a, "", " " + b + " "]))))
         == [SubjectAlternativeName(BuiltGeneralNames(
              [GeneralName(DNS_NAME_TAG, a), GeneralName(DNS_NAME_TAG, b)]))]
  {
    var pb := " " + b + " ";
    var dns := [a, "", pb];
    assert dns[1..] == ["", pb];
    assert dns[1..][1..] == [pb];
    assert [pb][1..] == [];
    assert NonEmpty([pb]) == [pb];
    assert NonEmpty(["", pb]) == [pb];
    assert NonEmpty(dns) == [a] + [pb];
    StripKeepsTrimmed(a);
    StripPadded(b);
    var items := DnsGeneralNames([a, pb]);
    assert items[0] == GeneralName(DNS_NAME_TAG, a);
    assert items[1] == GeneralName(DNS_NAME_TAG, b);
    assert [a] + [pb] == [a, pb];
    assert items == [GeneralName(DNS_NAME_TAG, a), GeneralName(DNS_NAME_TAG, b)];
  }

  /** ["a.com", "", " b.com "] yields exactly the items a.com and b.com. */
  lemma DnsNamesExample()
    ensures SanExtensions(Some(ExtensionParams(None, Some(["a.com", "", " b.com "]))))
         == [SubjectAlternativeName(BuiltGeneralNames(
              [GeneralName(DNS_NAME_TAG, "a.com"), GeneralName(DNS_NAME_TAG, "b.com")]))]
  {
    assert " b.com " == " " + "b.com" + " ";
    DnsNamesDropEmptyAndStrip("a.com", "b.com");
  }
}
