/** The career-interests step: a fixed catalogue of categories and roles whose chips
    toggle "Category - Role" keys in `formData.interests`. */
module CareerInterests {
  import opened Options
  import opened Lists

  datatype CareerOption = CareerOption(category: string, roles: seq<string>)

  const CareerOptions := [
    CareerOption("Tech", ["Software Engineering", "Data Science", "Product Management", "UX/UI Design"]),
    CareerOption("Finance", ["Investment Banking", "Private Equity", "Venture Capital", "Asset Management"]),
    CareerOption("Consulting", ["Management Consulting", "Strategy Consulting", "Technology Consulting"]),
    CareerOption("Healthcare", ["Medicine", "Biotech", "Healthcare Administration", "Public Health"]),
    CareerOption("Law", ["Corporate Law", "Public Interest Law", "Intellectual Property"]),
    CareerOption("Education", ["Teaching", "EdTech", "Higher Education Administration"]),
    CareerOption("Research", ["Academic Research", "Industry Research", "Think Tanks"]),
    CareerOption("Entrepreneurship", ["Startups", "Social Enterprise", "Innovation"]),
    CareerOption("Public Service", ["Government", "Non-Profit", "Policy", "International Development"]),
    CareerOption("Creative", ["Journalism", "Marketing", "Media & Entertainment", "Design"])]

  /** `${category.category} - ${role}`. */
  function InterestKey(category: string, role: string): string {
    category + " - " + role
  }

  /** The keys of one category's chips, in display order. */
  function RoleKeys(category: string, roles: seq<string>): (r: seq<string>)
    ensures |r| == |roles|
    ensures forall j | 0 <= j < |roles| :: r[j] == InterestKey(category, roles[j])
  {
    if roles == [] then [] else [InterestKey(category, roles[0])] + RoleKeys(category, roles[1..])
  }

  /** The keys of all chips, in display order. */
  function KeysOf(options: seq<CareerOption>): seq<string> {
    if options == [] then [] else RoleKeys(options[0].category, options[0].roles) + KeysOf(options[1..])
  }

  /** `k` is "Category - Role" for a category of `options` and one of its roles. */
  ghost predicate IsKeyOf(options: seq<CareerOption>, k: string) {
    exists i, j | 0 <= i < |options| && 0 <= j < |options[i].roles| ::
      k == InterestKey(options[i].category, options[i].roles[j])
  }

  /** The keys the chips toggle are exactly the "Category - Role" strings of the
      catalogue. */
  lemma {:induction false} KeysOfAreCategoryRoles(options: seq<CareerOption>, k: string)
    ensures k in KeysOf(options) <==> IsKeyOf(options, k)
  {
    if options != [] {
      KeysOfAreCategoryRoles(options[1..], k);
      var head := RoleKeys(options[0].category, options[0].roles);
      if k in head {
        var j :| 0 <= j < |head| && head[j] == k;
        assert k == InterestKey(options[0].category, options[0].roles[j]);
      }
      if IsKeyOf(options, k) {
        var i, j :| 0 <= i < |options| && 0 <= j < |options[i].roles| &&
          k == InterestKey(options[i].category, options[i].roles[j]);
        if i == 0 {
          assert head[j] == k;
        } else {
          assert options[1..][i - 1] == options[i];
        }
      }
      if IsKeyOf(options[1..], k) {
        var i, j :| 0 <= i < |options[1..]| && 0 <= j < |options[1..][i].roles| &&
          k == InterestKey(options[1..][i].category, options[1..][i].roles[j]);
        assert options[i + 1] == options[1..][i];
      }
    }
  }

  /** `toggleInterest`: a missing list counts as empty; a present key is removed
      everywhere, an absent one appended; no other key's membership changes. */
  function ToggleInterest(current: Option<seq<string>>, interest: string): (r: seq<string>)
    ensures interest in r <==> interest !in current.GetOr([])
    ensures forall y | y != interest :: (y in r <==> y in current.GetOr([]))
    ensures interest !in current.GetOr([]) ==> r == current.GetOr([]) + [interest]
    ensures interest in current.GetOr([]) ==> IsSubsequence(r, current.GetOr([]))
    ensures current.None? ==> r == [interest]
  {
    Toggle(current.GetOr([]), interest)
  }

  /** Toggling an absent key twice restores the list. */
  lemma ToggleInterestTwice(current: seq<string>, interest: string)
    requires interest !in current
    ensures ToggleInterest(Some(ToggleInterest(Some(current), interest)), interest) == current
  {
    ToggleTwiceAbsent(current, interest);
  }

  /** Selections built by clicking chips, starting from the empty draft, never repeat
      a key, hold only "Category - Role" keys of the catalogue, and so number at most
      as many as the catalogue has chips (`CareerOptions` is the one rendered). */
  lemma ClickedInterests(options: seq<CareerOption>, clicks: seq<string>)
    requires forall c | c in clicks :: c in KeysOf(options)
    ensures var r := ToggleAll([], clicks);
      && NoDuplicates(r)
      && (forall k | k in r :: IsKeyOf(options, k))
      && |r| <= |KeysOf(options)|
  {
    var r := ToggleAll([], clicks);
    ToggleAllFromEmpty(clicks);
    forall k | k in r ensures IsKeyOf(options, k) {
      KeysOfAreCategoryRoles(options, k);
    }
    NoDuplicatesBound(r, KeysOf(options));
  }
}
