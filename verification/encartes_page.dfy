/**
 * The weekly flyers page: category tabs choose which flyers are listed, a
 * card opens its flyer in a lightbox, and the lightbox's arrows step through
 * the flyers of the active category cyclically.
 */
module EncartesPage {
  import opened Common

  /** One flyer card. */
  datatype Flyer = Flyer(id: nat, title: string, image: string, validUntil: string)

  /** One category tab. */
  datatype Category = Category(id: string, caption: string, badge: string)

  const Categories: seq<Category> := [
    Category("hortifruti", "Hortifruti", "Seg & Ter"),
    Category("acougue", "Açougue", "Qua & Qui"),
    Category("fimdesemana", "Fim de Semana", "Sex - Dom"),
    Category("mensal", "Mensal", "Válido até 28/02")
  ]

  const HortifrutiFlyers: seq<Flyer> := [
    Flyer(1, "Hortifruti em Oferta", "/images/banner-sorteio.jpg", "Terça-feira"),
    Flyer(2, "Frutas da Estação", "/images/banner-app.jpg", "Terça-feira")
  ]
  const AcougueFlyers: seq<Flyer> := [
    Flyer(3, "Carnes Selecionadas", "/images/banner-tricard.jpg", "Quinta-feira"),
    Flyer(4, "Churrasco Completo", "/images/banner-sorteio.jpg", "Quinta-feira")
  ]
  const FimDeSemanaFlyers: seq<Flyer> := [
    Flyer(5, "Super Fim de Semana", "/images/banner-app.jpg", "Domingo"),
    Flyer(6, "Ofertas Especiais", "/images/banner-tricard.jpg", "Domingo")
  ]
  const MensalFlyers: seq<Flyer> := [
    Flyer(7, "Encarte Mensal", "/images/banner-sorteio.jpg", "28/02/2026"),
    Flyer(8, "Promoções do Mês", "/images/banner-app.jpg", "28/02/2026")
  ]

  /** The `flyers` table: category id to the flyers shown under that tab. */
  const Flyers: map<string, seq<Flyer>> := map[
    "hortifruti" := HortifrutiFlyers,
    "acougue" := AcougueFlyers,
    "fimdesemana" := FimDeSemanaFlyers,
    "mensal" := MensalFlyers
  ]

  /** The ids of the tabs, in display order. */
  function CategoryIds(): (ids: seq<string>)
    ensures |ids| == |Categories|
    ensures forall i :: 0 <= i < |ids| ==> ids[i] == Categories[i].id
  {
    seq(|Categories|, i requires 0 <= i < |Categories| => Categories[i].id)
  }

  /** Every tab has a non-empty list of flyers, and every list belongs to a tab. */
  lemma TabsMatchCatalog()
    ensures forall id :: id in CategoryIds() <==> id in Flyers
    ensures forall id :: id in Flyers ==> |Flyers[id]| > 0
  {
    assert CategoryIds() == ["hortifruti", "acougue", "fimdesemana", "mensal"];
    assert Flyers.Keys == {"hortifruti", "acougue", "fimdesemana", "mensal"};
  }

  /** The ids of a list of flyers, in order. */
  function Ids(fs: seq<Flyer>): (ids: seq<nat>)
    ensures |ids| == |fs|
    ensures forall i :: 0 <= i < |fs| ==> ids[i] == fs[i].id
  {
    seq(|fs|, i requires 0 <= i < |fs| => fs[i].id)
  }

  /** No two flyers of the list share an id. */
  predicate UniqueIds(fs: seq<Flyer>) {
    forall i, j :: 0 <= i < j < |fs| ==> fs[i].id != fs[j].id
  }

  /** All flyers of the catalog, tab by tab. */
  function AllFlyers(): seq<Flyer> {
    HortifrutiFlyers + AcougueFlyers + FimDeSemanaFlyers + MensalFlyers
  }

  /** No two flyers of the catalog share an id, so a flyer is identified by its id. */
  lemma FlyerIdsUnique()
    ensures UniqueIds(AllFlyers())
  {
    assert Ids(AllFlyers()) == [1, 2, 3, 4, 5, 6, 7, 8];
  }

  /** Every flyer has an image, so neither a card nor the lightbox shows the placeholder. */
  lemma FlyerImagesShown()
    ensures forall f :: f in AllFlyers() ==> ImageSrc(f.image) == f.image
  {
  }

  /** Every flyer of every category occurs in the catalog. */
  lemma CategoryFlyersInCatalog(c: string, f: Flyer)
    requires c in Flyers && f in Flyers[c]
    ensures f in AllFlyers()
  {
  }

  /** Within one category, too, the ids are distinct. */
  lemma CategoryIdsUnique(c: string)
    requires c in Flyers
    ensures UniqueIds(Flyers[c])
  {
    assert Flyers.Keys == {"hortifruti", "acougue", "fimdesemana", "mensal"};
    if c == "hortifruti" {
      assert Ids(Flyers[c]) == [1, 2];
    } else if c == "acougue" {
      assert Ids(Flyers[c]) == [3, 4];
    } else if c == "fimdesemana" {
      assert Ids(Flyers[c]) == [5, 6];
    } else {
      assert Ids(Flyers[c]) == [7, 8];
    }
  }

  /**
   * `Array.prototype.findIndex(f => f.id === id)`: the first position holding
   * a flyer with that id, or -1 when there is none.
   */
  function FindIndex(fs: seq<Flyer>, id: nat): (i: int)
    ensures -1 <= i < |fs|
    ensures i >= 0 ==> fs[i].id == id && forall j :: 0 <= j < i ==> fs[j].id != id
    ensures i == -1 <==> forall j :: 0 <= j < |fs| ==> fs[j].id != id
  {
    FindIndexFrom(fs, id, 0)
  }

  /** The search of `FindIndex`, from position `k` on. */
  function FindIndexFrom(fs: seq<Flyer>, id: nat, k: nat): (i: int)
    requires k <= |fs|
    ensures -1 <= i < |fs|
    ensures i >= 0 ==> k <= i && fs[i].id == id && forall j :: k <= j < i ==> fs[j].id != id
    ensures i == -1 <==> forall j :: k <= j < |fs| ==> fs[j].id != id
    decreases |fs| - k
  {
    if k == |fs| then -1
    else if fs[k].id == id then k
    else FindIndexFrom(fs, id, k + 1)
  }

  /** With distinct ids, the flyer at position `j` is found at position `j`. */
  lemma FindIndexOfMember(fs: seq<Flyer>, j: nat)
    requires UniqueIds(fs) && j < |fs|
    ensures FindIndex(fs, fs[j].id) == j
  {
    var i := FindIndex(fs, fs[j].id);
    assert i != -1 by {
      assert fs[j].id == fs[j].id;
    }
  }

  /** `Math.trunc(a / n)`: the quotient rounded toward zero. */
  function JsQuot(a: int, n: int): int
    requires n > 0
  {
    if a >= 0 then a / n else -((-a) / n)
  }

  /**
   * JavaScript's `%`: `a - n * q` for the quotient `q` rounded toward zero, so
   * the remainder takes the sign of the dividend.
   */
  function JsRem(a: int, n: int): (r: int)
    requires n > 0
    ensures -n < r < n
    ensures a >= 0 ==> r >= 0
    ensures a <= 0 ==> r <= 0
    ensures a == n * JsQuot(a, n) + r
    ensures a >= 0 ==> r == a % n
  {
    if a >= 0 then a % n else -((-a) % n)
  }

  /**
   * The sign, the bound and the quotient equation determine the remainder:
   * any `q` and `r` with those properties are `JsQuot(a, n)` and `JsRem(a, n)`.
   */
  lemma JsRemUnique(a: int, n: int, q: int, r: int)
    requires n > 0 && -n < r < n
    requires (a >= 0 ==> r >= 0) && (a <= 0 ==> r <= 0)
    requires a == n * q + r
    ensures r == JsRem(a, n) && q == JsQuot(a, n)
  {
    var s := JsRem(a, n);
    var d := q - JsQuot(a, n);
    // Both lie on the dividend's side of zero within (-n, n), so they differ
    // by less than n, while their difference is a multiple of n.
    assert s - r == n * d;
    SmallMultipleIsZero(n, d);
  }

  /** The only multiple of `n` strictly between `-n` and `n` is 0. */
  lemma SmallMultipleIsZero(n: int, d: int)
    requires n > 0 && -n < n * d < n
    ensures d == 0
  {
    if d >= 1 {
      MultipleAtLeast(n, d);
      assert false;
    } else if d <= -1 {
      MultipleAtLeast(n, -d);
      assert false;
    }
  }

  /** A positive multiple of `n` is at least `n`. */
  lemma {:induction false} MultipleAtLeast(n: int, k: int)
    requires n > 0 && k >= 1
    ensures n * k >= n
    decreases k
  {
    if k > 1 {
      MultipleAtLeast(n, k - 1);
      assert n * k == n * (k - 1) + n;
    }
  }

  /** `(currentIndex + 1) % currentFlyers.length`. */
  function NextIndex(i: int, n: int): (k: int)
    requires n > 0 && -1 <= i < n
    ensures 0 <= k < n
    ensures k == if i == n - 1 then 0 else i + 1
  {
    NextRem(i, n);
    JsRem(i + 1, n)
  }

  /** The remainder after one step forward: the step itself, or 0 past the end. */
  lemma NextRem(i: int, n: int)
    requires n > 0 && -1 <= i < n
    ensures (i + 1) % n == if i == n - 1 then 0 else i + 1
  {
    if i == n - 1 {
      assert (i + 1) % n == n % n == 0;
    } else {
      assert 0 <= i + 1 < n;
    }
  }

  /** `(currentIndex - 1 + currentFlyers.length) % currentFlyers.length`. */
  function PrevIndex(i: int, n: int): (k: int)
    requires n > 0 && -1 <= i < n
    ensures 0 <= k < n
    ensures 0 < i ==> k == i - 1
    ensures i == 0 ==> k == n - 1
    ensures i == -1 ==> k == (n - 2) % n
  {
    JsRem(i - 1 + n, n)
  }

  /** Next then previous, and previous then next, come back to the start. */
  lemma PrevNextInverse(i: int, n: int)
    requires n > 0 && 0 <= i < n
    ensures PrevIndex(NextIndex(i, n), n) == i
    ensures NextIndex(PrevIndex(i, n), n) == i
  {
  }

  /** The position reached by pressing "next" `k` times from position `i`. */
  function NextTimes(i: int, n: int, k: nat): (j: int)
    requires n > 0 && 0 <= i < n
    ensures 0 <= j < n
  {
    if k == 0 then i else NextIndex(NextTimes(i, n, k - 1), n)
  }

  /** Pressing "next" `a` then `b` times is pressing it `a + b` times. */
  lemma {:induction false} NextTimesAdd(i: int, n: int, a: nat, b: nat)
    requires n > 0 && 0 <= i < n
    ensures NextTimes(i, n, a + b) == NextTimes(NextTimes(i, n, a), n, b)
  {
    if b > 0 {
      NextTimesAdd(i, n, a, b - 1);
    }
  }

  /** Before the end of the list, "next" `k` times advances the position by `k`. */
  lemma {:induction false} NextTimesForward(i: int, n: int, k: nat)
    requires n > 0 && 0 <= i && i + k < n
    ensures NextTimes(i, n, k) == i + k
  {
    if k > 0 {
      NextTimesForward(i, n, k - 1);
    }
  }

  /** Pressing "next" as many times as there are flyers comes back to the start. */
  lemma NextTimesCycle(i: int, n: int)
    requires n > 0 && 0 <= i < n
    ensures NextTimes(i, n, n) == i
  {
    NextTimesForward(i, n, n - 1 - i);
    NextTimesAdd(i, n, n - 1 - i, i + 1);
    NextTimesAdd(n - 1, n, 1, i);
    NextTimesForward(0, n, i);
  }

  /** The flyer the "next" arrow selects when `f` is open. */
  function NextFlyer(fs: seq<Flyer>, f: Flyer): (g: Flyer)
    requires |fs| > 0
    ensures g in fs
  {
    fs[NextIndex(FindIndex(fs, f.id), |fs|)]
  }

  /** The flyer the "previous" arrow selects when `f` is open. */
  function PrevFlyer(fs: seq<Flyer>, f: Flyer): (g: Flyer)
    requires |fs| > 0
    ensures g in fs
  {
    fs[PrevIndex(FindIndex(fs, f.id), |fs|)]
  }

  /** With distinct ids, the arrows are inverse to each other on the category's flyers. */
  lemma PrevNextFlyerInverse(fs: seq<Flyer>, j: nat)
    requires UniqueIds(fs) && j < |fs|
    ensures PrevFlyer(fs, NextFlyer(fs, fs[j])) == fs[j]
    ensures NextFlyer(fs, PrevFlyer(fs, fs[j])) == fs[j]
  {
    var n := |fs|;
    FindIndexOfMember(fs, j);
    FindIndexOfMember(fs, NextIndex(j, n));
    FindIndexOfMember(fs, PrevIndex(j, n));
    PrevNextInverse(j, n);
  }

  /** The flyer reached by pressing "next" `k` times from `f`. */
  function NextFlyerTimes(fs: seq<Flyer>, f: Flyer, k: nat): (g: Flyer)
    requires |fs| > 0
  {
    if k == 0 then f else NextFlyer(fs, NextFlyerTimes(fs, f, k - 1))
  }

  /** On flyers, "next" `k` times from position `j` lands on position `NextTimes(j, n, k)`. */
  lemma {:induction false} NextFlyerTimesAt(fs: seq<Flyer>, j: nat, k: nat)
    requires UniqueIds(fs) && j < |fs|
    ensures NextFlyerTimes(fs, fs[j], k) == fs[NextTimes(j, |fs|, k)]
  {
    if k > 0 {
      NextFlyerTimesAt(fs, j, k - 1);
      FindIndexOfMember(fs, NextTimes(j, |fs|, k - 1));
    }
  }

  /** Pressing "next" once per flyer of the category returns to the flyer first opened. */
  lemma NextFlyerCycle(fs: seq<Flyer>, j: nat)
    requires UniqueIds(fs) && j < |fs|
    ensures NextFlyerTimes(fs, fs[j], |fs|) == fs[j]
  {
    var n := |fs|;
    var m := NextTimes(j, n, n);
    assert m == j by {
      NextTimesCycle(j, n);
    }
    assert NextFlyerTimes(fs, fs[j], n) == fs[m] by {
      NextFlyerTimesAt(fs, j, n);
    }
  }

  /** An open flyer outside the list is not found, and "next" falls back to the first flyer. */
  lemma NextFromOutsideIsFirst(fs: seq<Flyer>, f: Flyer)
    requires |fs| > 0
    requires forall g :: g in fs ==> g.id != f.id
    ensures FindIndex(fs, f.id) == -1
    ensures NextFlyer(fs, f) == fs[0]
  {
    assert forall j :: 0 <= j < |fs| ==> fs[j] in fs;
  }

  /** Where a click inside the open lightbox lands. */
  datatype LightboxTarget = Backdrop | CloseButton | Content | PreviousButton | NextButton

  /** The flyers page's React state. */
  class FlyersView {
    var activeCategory: string
    var selectedFlyer: Option<Flyer>

    /** The active category is always one of the tabs. */
    predicate Valid()
      reads this
    {
      activeCategory in Flyers
    }

    /** `flyers[activeCategory]`: the cards on display. */
    function CurrentFlyers(): (fs: seq<Flyer>)
      reads this
      requires Valid()
      ensures |fs| > 0 && UniqueIds(fs)
    {
      TabsMatchCatalog();
      CategoryIdsUnique(activeCategory);
      Flyers[activeCategory]
    }

    /** The lightbox is rendered exactly when a flyer is selected. */
    function LightboxOpen(): bool
      reads this
    {
      selectedFlyer.Some?
    }

    /** Initial state: the "hortifruti" tab and no flyer open. */
    constructor ()
      ensures Valid()
      ensures activeCategory == "hortifruti" && selectedFlyer == None
      ensures !LightboxOpen()
    {
      activeCategory := "hortifruti";
      selectedFlyer := None;
    }

    /** A tab click makes that tab's flyers the ones on display. */
    method ClickTab(id: string)
      requires Valid() && id in CategoryIds()
      modifies this
      ensures Valid()
      ensures activeCategory == id && CurrentFlyers() == Flyers[id]
      ensures selectedFlyer == old(selectedFlyer)
    {
      TabsMatchCatalog();
      activeCategory := id;
    }

    /** A card click opens that card's flyer. */
    method ClickCard(f: Flyer)
      requires Valid() && f in CurrentFlyers()
      modifies this
      ensures Valid() && LightboxOpen()
      ensures selectedFlyer == Some(f) && activeCategory == old(activeCategory)
    {
      selectedFlyer := Some(f);
    }

    /** The "previous" arrow: the flyer before the open one, cyclically. */
    method ShowPrevious()
      requires Valid() && selectedFlyer.Some?
      modifies this
      ensures Valid() && activeCategory == old(activeCategory)
      ensures selectedFlyer == Some(PrevFlyer(CurrentFlyers(), old(selectedFlyer).value))
      ensures selectedFlyer.value in CurrentFlyers()
    {
      var fs := CurrentFlyers();
      var currentIndex := FindIndex(fs, selectedFlyer.value.id);
      var prevIndex := JsRem(currentIndex - 1 + |fs|, |fs|);
      selectedFlyer := Some(fs[prevIndex]);
    }

    /** The "next" arrow: the flyer after the open one, cyclically. */
    method ShowNext()
      requires Valid() && selectedFlyer.Some?
      modifies this
      ensures Valid() && activeCategory == old(activeCategory)
      ensures selectedFlyer == Some(NextFlyer(CurrentFlyers(), old(selectedFlyer).value))
      ensures selectedFlyer.value in CurrentFlyers()
    {
      var fs := CurrentFlyers();
      var currentIndex := FindIndex(fs, selectedFlyer.value.id);
      var nextIndex := JsRem(currentIndex + 1, |fs|);
      selectedFlyer := Some(fs[nextIndex]);
    }

    /**
     * A click in the open lightbox. The backdrop and the close button clear the
     * selection; the content box stops the click from reaching the backdrop;
     * the arrows step through the flyers.
     */
    method ClickLightbox(target: LightboxTarget)
      requires Valid() && LightboxOpen()
      modifies this
      ensures Valid() && activeCategory == old(activeCategory)
      ensures target == Backdrop || target == CloseButton ==> selectedFlyer == None
      ensures target == Content ==> selectedFlyer == old(selectedFlyer)
      ensures target == PreviousButton ==>
        selectedFlyer == Some(PrevFlyer(CurrentFlyers(), old(selectedFlyer).value))
      ensures target == NextButton ==>
        selectedFlyer == Some(NextFlyer(CurrentFlyers(), old(selectedFlyer).value))
    {
      match target {
        case Backdrop => selectedFlyer := None;
        case CloseButton => selectedFlyer := None;
        case Content =>
        case PreviousButton => ShowPrevious();
        case NextButton => ShowNext();
      }
    }
  }
}
