/**
  The application shell (src/App.tsx): a nav bar whose buttons record the clicked section
  and highlight it, above five sections that are always rendered.
 */
module Navigation {

  /** The labels of the nav buttons, in the order they are drawn. */
  const NavLabels: seq<string> := ["Home", "Products", "About", "Contact"]

  /** The values `activeSection` can take once a button has been clicked. */
  const NavSections: set<string> := {"home", "products", "about", "contact"}

  /** The sections the page renders below the nav bar. */
  datatype Section = Hero | ProductShowcase | About | Contact | Footer

  /** Lower-casing of one character, for the ASCII letters the labels use. */
  function LowerChar(c: char): (r: char)
    ensures 'A' <= c <= 'Z' ==> 'a' <= r <= 'z' && r as int - c as int == 32
    ensures !('A' <= c <= 'Z') ==> r == c
  {
    if 'A' <= c <= 'Z' then (c as int + 32) as char else c
  }

  /** `toLowerCase()`: every character lower-cased, the length unchanged. */
  function ToLower(s: string): (r: string)
    ensures |r| == |s|
    ensures forall i :: 0 <= i < |s| ==> r[i] == LowerChar(s[i])
  {
    if s == [] then [] else [LowerChar(s[0])] + ToLower(s[1..])
  }

  /** The value a click on button `i` stores. */
  function SectionOf(i: nat): string
    requires i < |NavLabels|
  {
    ToLower(NavLabels[i])
  }

  /** `activeSection === item.toLowerCase()`: button `i` is highlighted. */
  predicate Highlighted(activeSection: string, i: nat)
    requires i < |NavLabels|
  {
    activeSection == SectionOf(i)
  }

  /** `text` lower-cases to `lower` when they agree character by character. */
  lemma LowersTo(text: string, lower: string)
    requires |text| == |lower|
    requires forall i :: 0 <= i < |text| ==> LowerChar(text[i]) == lower[i]
    ensures ToLower(text) == lower
  {
  }

  /** The four buttons store "home", "products", "about" and "contact". */
  lemma SectionsOfButtons()
    ensures SectionOf(0) == "home" && SectionOf(1) == "products"
    ensures SectionOf(2) == "about" && SectionOf(3) == "contact"
  {
    LowersTo("Home", "home");
    LowersTo("Products", "products");
    LowersTo("About", "about");
    LowersTo("Contact", "contact");
  }

  /** Every click leaves `activeSection` among the four section names. */
  lemma ClickStaysInSections(i: nat)
    requires i < |NavLabels|
    ensures SectionOf(i) in NavSections
  {
    SectionsOfButtons();
  }

  /** Every section name is stored by some button. */
  lemma SomeButtonHighlighted(activeSection: string)
    requires activeSection in NavSections
    ensures exists i :: 0 <= i < |NavLabels| && Highlighted(activeSection, i)
  {
    SectionsOfButtons();
    if activeSection == "home" {
      assert Highlighted(activeSection, 0);
    } else if activeSection == "products" {
      assert Highlighted(activeSection, 1);
    } else if activeSection == "about" {
      assert Highlighted(activeSection, 2);
    } else {
      assert Highlighted(activeSection, 3);
    }
  }

  /** No two buttons store the same value. */
  lemma ButtonsStoreDistinctSections(i: nat, j: nat)
    requires i < |NavLabels| && j < |NavLabels|
    requires SectionOf(i) == SectionOf(j)
    ensures i == j
  {
    // The four labels differ in length, and lower-casing keeps the length.
    assert |SectionOf(i)| == |NavLabels[i]| && |SectionOf(j)| == |NavLabels[j]|;
    assert |NavLabels[0]| == 4 && |NavLabels[1]| == 8 && |NavLabels[2]| == 5 && |NavLabels[3]| == 7;
  }

  /** Whenever `activeSection` is a section name, exactly one button is highlighted. */
  lemma ExactlyOneHighlighted(activeSection: string)
    requires activeSection in NavSections
    ensures exists i :: 0 <= i < |NavLabels| && Highlighted(activeSection, i)
    ensures forall i, j ::
              (0 <= i < |NavLabels| && 0 <= j < |NavLabels| &&
               Highlighted(activeSection, i) && Highlighted(activeSection, j)) ==> i == j
  {
    SomeButtonHighlighted(activeSection);
    forall i, j | 0 <= i < |NavLabels| && 0 <= j < |NavLabels| &&
                  Highlighted(activeSection, i) && Highlighted(activeSection, j)
      ensures i == j
    {
      ButtonsStoreDistinctSections(i, j);
    }
  }

  /** After a click on button `i`, button `j` is highlighted iff it is the same button. */
  lemma ClickHighlightsClicked(i: nat, j: nat)
    requires i < |NavLabels| && j < |NavLabels|
    ensures Highlighted(SectionOf(i), j) <==> i == j
  {
    ClickStaysInSections(i);
    ExactlyOneHighlighted(SectionOf(i));
  }

  /** The rendered sections: all five, whatever `activeSection` holds. */
  function RenderedSections(activeSection: string): (r: seq<Section>)
    ensures |r| == 5
    ensures Hero in r && ProductShowcase in r && About in r && Contact in r && Footer in r
  {
    [Hero, ProductShowcase, About, Contact, Footer]
  }

  /** The shell component with its one piece of state. */
  class App {
    var activeSection: string

    predicate Valid()
      reads this
    {
      activeSection in NavSections
    }

    constructor ()
      ensures activeSection == "home" && Valid()
    {
      activeSection := "home";
    }

    /**
      A click on nav button `i`. The new value does not depend on the old one, so a second
      click on the same button leaves the state as the first left it.
     */
    method ClickNav(i: nat)
      requires i < |NavLabels|
      modifies this
      ensures activeSection == SectionOf(i)
      ensures Valid()
    {
      ClickStaysInSections(i);
      activeSection := ToLower(NavLabels[i]);
    }

    /** Button `i` is highlighted. */
    predicate IsHighlighted(i: nat)
      requires i < |NavLabels|
      reads this
    {
      Highlighted(activeSection, i)
    }
  }
}
