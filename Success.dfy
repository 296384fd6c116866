/** The success page: a listing of the submitted record, one line per key with a
    readable label, or a fallback when the page is reached without a record. */
module Success {
  import opened JsText

  datatype Option<T> = None | Some(value: T)

  /** One line of the listing: the key's label as its title and the value as submitted. */
  datatype Item = Item(title: string, value: string)

  /** What the page shows. */
  datatype Page = NoData | Listing(items: seq<Item>)

  /** `key.replace(/([A-Z])/g, " $1")`: a blank inserted before every ASCII capital. */
  function Label(key: string): string {
    if key == [] then []
    else (if IsUpper(key[0]) then [' ', key[0]] else [key[0]]) + Label(key[1..])
  }

  /** The number of ASCII capitals in `s`. */
  function CountUpper(s: string): nat {
    if s == [] then 0 else (if IsUpper(s[0]) then 1 else 0) + CountUpper(s[1..])
  }

  /** Drops a blank wherever one stands right before an ASCII capital. */
  function Unlabel(t: string): string {
    if t == [] then []
    else if |t| >= 2 && t[0] == ' ' && IsUpper(t[1]) then [t[1]] + Unlabel(t[2..])
    else [t[0]] + Unlabel(t[1..])
  }

  /** The label has one more character than the key for every capital in it. */
  lemma {:induction false} LabelLength(key: string)
    ensures |Label(key)| == |key| + CountUpper(key)
  {
    if key != [] {
      LabelLength(key[1..]);
    }
  }

  /** A key without capitals is its own label. */
  lemma {:induction false} LabelWithoutCapitals(key: string)
    requires CountUpper(key) == 0
    ensures Label(key) == key
  {
    if key != [] {
      LabelWithoutCapitals(key[1..]);
      assert key == [key[0]] + key[1..];
    }
  }

  /** A label never starts with a capital: one in first place gets its blank in front. */
  lemma LabelStartsWithoutCapital(key: string)
    ensures Label(key) == [] || !IsUpper(Label(key)[0])
  {
  }

  /** Removing the inserted blanks gives the key back, so the label loses nothing and
      changes nothing but the blanks. */
  lemma {:induction false} UnlabelLabel(key: string)
    ensures Unlabel(Label(key)) == key
  {
    if key != [] {
      var rest := Label(key[1..]);
      UnlabelLabel(key[1..]);
      LabelStartsWithoutCapital(key[1..]);
      if IsUpper(key[0]) {
        assert Label(key) == [' ', key[0]] + rest;
        assert Label(key)[2..] == rest;
      } else {
        assert Label(key) == [key[0]] + rest;
        assert Label(key)[1..] == rest;
      }
      assert key == [key[0]] + key[1..];
    }
  }

  /** Every capital in a label has a blank right before it. */
  lemma {:induction false} CapitalsFollowBlank(key: string)
    ensures forall i | 0 <= i < |Label(key)| && IsUpper(Label(key)[i]) ::
      i > 0 && Label(key)[i - 1] == ' '
  {
    if key != [] {
      CapitalsFollowBlank(key[1..]);
      LabelStartsWithoutCapital(key[1..]);
      var head := if IsUpper(key[0]) then [' ', key[0]] else [key[0]];
      var rest := Label(key[1..]);
      assert Label(key) == head + rest;
      forall i | 0 <= i < |Label(key)| && IsUpper(Label(key)[i])
        ensures i > 0 && Label(key)[i - 1] == ' '
      {
        if i >= |head| {
          assert Label(key)[i] == rest[i - |head|];
          if i - |head| > 0 {
            assert Label(key)[i - 1] == rest[i - |head| - 1];
          }
        }
      }
    }
  }

  /** The replacement works character by character, so labelling distributes over
      concatenation. */
  lemma {:induction false} LabelConcat(a: string, b: string)
    ensures Label(a + b) == Label(a) + Label(b)
  {
    if a == [] {
      assert a + b == b;
    } else {
      var head := if IsUpper(a[0]) then [' ', a[0]] else [a[0]];
      assert (a + b)[0] == a[0] && (a + b)[1..] == a[1..] + b;
      calc {
        Label(a + b);
        head + Label(a[1..] + b);
        { LabelConcat(a[1..], b); }
        head + (Label(a[1..]) + Label(b));
        (head + Label(a[1..])) + Label(b);
        Label(a) + Label(b);
      }
    }
  }

  /** Labels of the form's keys: one capital, and none. */
  lemma LabelOfFirstName()
    ensures Label("firstName") == "first Name"
  {
    LabelConcat("first", "Name");
    assert "first" + "Name" == "firstName";
    assert Label("first") == "first";
    assert Label("Name") == " Name";
    assert "first" + " Name" == "first Name";
  }

  lemma LabelOfCity()
    ensures Label("city") == "city"
  {
  }

  /** `Object.entries(state).map(...)`: one item per entry, in entry order. */
  function Items(entries: seq<(string, string)>): (r: seq<Item>)
    ensures |r| == |entries|
    ensures forall i | 0 <= i < |r| :: r[i] == Item(Label(entries[i].0), entries[i].1)
  {
    if entries == [] then []
    else [Item(Label(entries[0].0), entries[0].1)] + Items(entries[1..])
  }

  /** The page for the router state `state`: the fallback when there is none, else the
      listing. */
  function Render(state: Option<seq<(string, string)>>): (p: Page)
    ensures p.NoData? <==> state.None?
  {
    match state
    case None => NoData
    case Some(entries) => Listing(Items(entries))
  }

  /** Given a record, the listing has exactly one item per entry, in the record's
      order; each item's label gives back its key and its value is the entry's
      value unchanged. */
  lemma ListingMatchesRecord(entries: seq<(string, string)>)
    ensures Render(Some(entries)).Listing?
    ensures var items := Render(Some(entries)).items;
      && |items| == |entries|
      && forall i | 0 <= i < |items| ::
           Unlabel(items[i].title) == entries[i].0 && items[i].value == entries[i].1
  {
    var items := Render(Some(entries)).items;
    forall i | 0 <= i < |items|
      ensures Unlabel(items[i].title) == entries[i].0
    {
      UnlabelLabel(entries[i].0);
    }
  }
}
