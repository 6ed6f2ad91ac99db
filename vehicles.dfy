/** The vehicles page (`src/pages/Vehicles.tsx`). A vehicle's brand and model
    share one text field on the server: the page splits it at the first run
    of white space for editing and joins the two parts with one space when
    saving. */
module Vehicles {
  import opened Wrappers
  import opened Seqs
  import opened Text

  datatype Vehicle = Vehicle(id: int, model: string, plate: string)

  /** The two halves shown in the form. */
  datatype BrandModel = BrandModel(brand: string, model: string)

  /** The body of a create or update request. */
  datatype VehicleBody = VehicleBody(model: string, plate: string)

  /** `splitBrandModel`: the first word of the trimmed text is the brand, the
      remaining words joined by single spaces are the model. */
  function SplitBrandModel(fullModel: string): (r: BrandModel)
    ensures r.brand == "" || IsWord(r.brand)
  {
    var trimmed := Trim(fullModel);
    if |trimmed| == 0 then BrandModel("", "")
    else
      assert !IsBlank(trimmed) by { assert !IsSpace(trimmed[0]); }
      WordsEmpty(trimmed);
      WordsAreWords(trimmed);
      var parts := Words(trimmed);
      if |parts| == 1 then BrandModel(parts[0], "")
      else BrandModel(parts[0], Join(parts[1..], " "))
  }

  predicate NonEmpty(s: string) {
    |s| > 0
  }

  /** `joinBrandModel`: the trimmed parts that are not empty, joined by one space. */
  function JoinBrandModel(brand: string, model: string): (r: string)
    ensures |r| == 0 <==> IsBlank(brand) && IsBlank(model)
    ensures !IsBlank(brand) && !IsBlank(model) ==> r == Trim(brand) + " " + Trim(model)
    ensures !IsBlank(brand) && IsBlank(model) ==> r == Trim(brand)
    ensures IsBlank(brand) && !IsBlank(model) ==> r == Trim(model)
  {
    var parts := [Trim(brand), Trim(model)];
    FilterPair(Trim(brand), Trim(model), NonEmpty);
    JoinPair(Trim(brand), Trim(model), " ");
    var kept := Filter(parts, NonEmpty);
    Join(kept, " ")
  }

  /** A blank text has neither brand nor model. */
  lemma SplitBlank(s: string)
    requires IsBlank(s)
    ensures SplitBrandModel(s) == BrandModel("", "")
  {
  }

  /** A single word is all brand. */
  lemma SplitOneWord(w: string)
    requires IsWord(w)
    ensures SplitBrandModel(w) == BrandModel(w, "")
  {
    TrimNoEdges(w);
    WordsOfWord(w);
  }

  /** The brand is empty or one word (it never holds white space); the model
      is empty exactly when the text has at most one word, and is otherwise
      the remaining words joined by single spaces. */
  lemma SplitShape(s: string)
    ensures SplitBrandModel(s).brand == "" || IsWord(SplitBrandModel(s).brand)
    ensures !IsBlank(s) ==> SplitBrandModel(s).brand == Words(Trim(s))[0]
    ensures !IsBlank(s) ==> SplitBrandModel(s).model == Join(Words(Trim(s))[1..], " ")
  {
    var t := Trim(s);
    if |t| > 0 {
      assert !IsBlank(t) by { assert !IsSpace(t[0]); }
      WordsEmpty(t);
      WordsAreWords(t);
      var parts := Words(t);
      assert IsWord(parts[0]);
      if |parts| == 1 {
        assert Join(parts[1..], " ") == "" by { assert parts[1..] == []; }
      }
      assert SplitBrandModel(s) == BrandModel(parts[0], Join(parts[1..], " "));
    }
  }

  /** The split of a field that is already trimmed and whose words are known. */
  lemma SplitOfWords(s: string, b: string, ws: seq<string>)
    requires |ws| >= 1 && Trim(s) == s && Words(s) == [b] + ws
    ensures SplitBrandModel(s) == BrandModel(b, Join(ws, " "))
  {
    var parts := Words(s);
    assert |s| > 0;
    assert parts[0] == b && parts[1..] == ws;
    assert SplitBrandModel(s) == BrandModel(parts[0], Join(parts[1..], " "));
  }

  /** Round trip: a one-word brand and a model made of single-spaced words
      are recovered from the joined field. */
  lemma SplitJoin(b: string, ws: seq<string>)
    requires IsWord(b)
    requires forall i :: 0 <= i < |ws| ==> IsWord(ws[i])
    ensures SplitBrandModel(JoinBrandModel(b, Join(ws, " "))) == BrandModel(b, Join(ws, " "))
  {
    var m := Join(ws, " ");
    TrimNoEdges(b);
    if |ws| == 0 {
      assert m == "";
      assert !IsBlank(b) by { assert !IsSpace(b[0]); }
      assert JoinBrandModel(b, m) == b;
      SplitOneWord(b);
    } else {
      JoinEdges(ws);
      TrimNoEdges(m);
      JoinTrimmed(b, m);
      SplitJoinMany(b, ws);
    }
  }

  /** A word followed by one space and at least one more single-spaced word
      splits at that space. */
  lemma SplitJoinMany(b: string, ws: seq<string>)
    requires IsWord(b)
    requires |ws| >= 1 && forall i :: 0 <= i < |ws| ==> IsWord(ws[i])
    ensures SplitBrandModel(b + " " + Join(ws, " ")) == BrandModel(b, Join(ws, " "))
  {
    var m := Join(ws, " ");
    JoinEdges(ws);
    var s := b + " " + m;
    assert s[0] == b[0];
    assert s[|s| - 1] == m[|m| - 1];
    TrimNoEdges(s);
    WordsOfJoin(ws);
    WordsCons(b, m);
    assert s == b + [' '] + m;
    SplitOfWords(s, b, ws);
  }

  /** Opening a vehicle for editing and saving it untouched stores a field
      that splits the same way again. */
  lemma SplitJoinSplit(s: string)
    ensures SplitBrandModel(JoinBrandModel(SplitBrandModel(s).brand, SplitBrandModel(s).model))
         == SplitBrandModel(s)
  {
    var t := Trim(s);
    if |t| == 0 {
      assert JoinBrandModel("", "") == "";
    } else {
      SplitShape(s);
      WordsAreWords(t);
      var ps := Words(t);
      assert SplitBrandModel(s) == BrandModel(ps[0], Join(ps[1..], " "));
      var rest := ps[1..];
      assert forall i :: 0 <= i < |rest| ==> IsWord(rest[i]) by {
        forall i | 0 <= i < |rest| ensures IsWord(rest[i]) { assert rest[i] == ps[i + 1]; }
      }
      SplitJoin(ps[0], rest);
    }
  }

  /** Two non-empty trimmed parts are joined with exactly one space. */
  lemma JoinTrimmed(b: string, m: string)
    requires |b| > 0 && |m| > 0 && Trim(b) == b && Trim(m) == m
    ensures JoinBrandModel(b, m) == b + " " + m
  {
  }

  /** Joining a two-word brand with a model of words. */
  lemma JoinTwoWordBrand(b1: string, b2: string, m: string)
    requires IsWord(b1) && IsWord(b2) && |m| > 0 && Trim(m) == m
    ensures JoinBrandModel(b1 + " " + b2, m) == b1 + " " + (b2 + " " + m)
  {
    var brand := b1 + " " + b2;
    assert brand[0] == b1[0] && brand[|brand| - 1] == b2[|b2| - 1];
    TrimNoEdges(brand);
    JoinTrimmed(brand, m);
  }

  /** A brand of two words does not survive the round trip: its second word
      moves into the model ("Land Rover" + "Defender" reads back as "Land" +
      "Rover Defender"). */
  lemma TwoWordBrandMoves(b1: string, b2: string, ws: seq<string>)
    requires IsWord(b1) && IsWord(b2)
    requires |ws| >= 1 && forall i :: 0 <= i < |ws| ==> IsWord(ws[i])
    ensures SplitBrandModel(JoinBrandModel(b1 + " " + b2, Join(ws, " ")))
         == BrandModel(b1, b2 + " " + Join(ws, " "))
  {
    var m := Join(ws, " ");
    JoinEdges(ws);
    TrimNoEdges(m);
    JoinTwoWordBrand(b1, b2, m);
    var all := [b2] + ws;
    JoinCons(b2, ws, " ");
    AllWordsCons(b2, ws);
    SplitJoinMany(b1, all);
  }

  /** The form state of the page. `editingId` is `None` when no row is being
      edited. */
  class VehiclesPage {
    var list: seq<Vehicle>
    var brand: string
    var model: string
    var plate: string
    var editingId: Option<int>
    var editBrand: string
    var editModel: string
    var editPlate: string

    constructor ()
      ensures list == [] && brand == "" && model == "" && plate == ""
      ensures editingId == None && editBrand == "" && editModel == "" && editPlate == ""
    {
      list := [];
      brand, model, plate := "", "", "";
      editingId := None;
      editBrand, editModel, editPlate := "", "", "";
    }

    /** The plate input stores what is typed, upper-cased. */
    method SetPlate(text: string)
      modifies this`plate
      ensures plate == Upper(text)
    {
      plate := Upper(text);
    }

    method SetEditPlate(text: string)
      modifies this`editPlate
      ensures editPlate == Upper(text)
    {
      editPlate := Upper(text);
    }

    /** `submit`: with a blank brand, model or plate nothing is sent and
        nothing changes. Otherwise the joined field and the plate are sent;
        on success the form clears and the list is reloaded (`reloaded`),
        on failure the form keeps its text. */
    method Submit(serverOk: bool, reloaded: seq<Vehicle>) returns (sent: Option<VehicleBody>)
      modifies this`brand, this`model, this`plate, this`list
      ensures sent.None? <==> IsBlank(old(brand)) || IsBlank(old(model)) || IsBlank(old(plate))
      ensures sent.Some? ==> sent.value == VehicleBody(JoinBrandModel(old(brand), old(model)), old(plate))
      ensures sent.Some? && serverOk ==> brand == "" && model == "" && plate == "" && list == reloaded
      ensures !(sent.Some? && serverOk) ==>
        brand == old(brand) && model == old(model) && plate == old(plate) && list == old(list)
    {
      if IsBlank(brand) || IsBlank(model) || IsBlank(plate) {
        return None;
      }
      sent := Some(VehicleBody(JoinBrandModel(brand, model), plate));
      if serverOk {
        brand, model, plate := "", "", "";
        list := reloaded;
      }
    }

    /** `startEdit`: the row's id, its field split into brand and model, and
        its plate. */
    method StartEdit(v: Vehicle)
      modifies this`editingId, this`editBrand, this`editModel, this`editPlate
      ensures editingId == Some(v.id)
      ensures editBrand == SplitBrandModel(v.model).brand && editModel == SplitBrandModel(v.model).model
      ensures editPlate == v.plate
    {
      editingId := Some(v.id);
      var parsed := SplitBrandModel(v.model);
      editBrand := parsed.brand;
      editModel := parsed.model;
      editPlate := v.plate;
    }

    /** `cancelEdit`: no row in edit and the three edit fields empty. */
    method CancelEdit()
      modifies this`editingId, this`editBrand, this`editModel, this`editPlate
      ensures editingId == None && editBrand == "" && editModel == "" && editPlate == ""
    {
      editingId := None;
      editBrand, editModel, editPlate := "", "", "";
    }

    /** `saveEdit`: nothing without a row in edit or with a blank field;
        otherwise the update is sent for the row, and on success the edit
        closes and the list is reloaded. */
    method SaveEdit(serverOk: bool, reloaded: seq<Vehicle>) returns (sent: Option<(int, VehicleBody)>)
      modifies this`editingId, this`editBrand, this`editModel, this`editPlate, this`list
      ensures sent.None? <==>
        old(editingId).None? || IsBlank(old(editBrand)) || IsBlank(old(editModel)) || IsBlank(old(editPlate))
      ensures sent.Some? ==>
        sent.value == (old(editingId).value, VehicleBody(JoinBrandModel(old(editBrand), old(editModel)), old(editPlate)))
      ensures sent.Some? && serverOk ==>
        editingId == None && editBrand == "" && editModel == "" && editPlate == "" && list == reloaded
      ensures !(sent.Some? && serverOk) ==>
        editingId == old(editingId) && editBrand == old(editBrand) && editModel == old(editModel)
        && editPlate == old(editPlate) && list == old(list)
    {
      if editingId.None? {
        return None;
      }
      if IsBlank(editBrand) || IsBlank(editModel) || IsBlank(editPlate) {
        return None;
      }
      sent := Some((editingId.value, VehicleBody(JoinBrandModel(editBrand, editModel), editPlate)));
      if serverOk {
        CancelEdit();
        list := reloaded;
      }
    }
  }
}
