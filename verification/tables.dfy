/** The fixed lookup tables that map XMLTV category names to DVB content
    codes (the nibble pairs of the content descriptor, section 6.2.9 of ETSI
    EN 300 468) and XMLTV rating labels to VDR's parental rating ages. Each
    Go map literal is written as its list of entries in source order (Go
    refuses duplicate keys, so order does not matter); a lookup is exact and
    case-sensitive, and a missing key yields Go's zero value 0. */
module Tables {

  type Table = seq<(string, int)>

  /** Category name to content code; several names share a code. The
      entries are kept in the source's groups, one per content nibble, with
      the hand-added synonyms last. */
  const Genres: Table :=
    MovieDrama + NewsCurrentAffairs + Shows + Sports + ChildrenYouth
    + MusicBalletDance + ArtsCulture + SocialPoliticalEconomics
    + EducationalScience + LeisureHobbies + Special + Additions

  const MovieDrama: Table := [
    ("Movie/Drama", 0x10),
    ("Action", 0x10),
    ("Detective/Thriller", 0x11),
    ("Adventure/Western/War", 0x12),
    ("Science Fiction/Fantasy/Horror", 0x13),
    ("Comedy", 0x14),
    ("Soap/Melodrama/Folkloric", 0x15),
    ("Romance", 0x16),
    ("Serious/Classical/Religious/Historical Movie/Drama", 0x17),
    ("Adult Movie/Drama", 0x18),
    ("Adults only", 0x18),
    ("Comedy-drama", 0x14),
    ("Crime drama", 0x10),
    ("Drama", 0x10),
    ("Film", 0x10),
    ("Science fiction", 0x13),
    ("Soap", 0x15),
    ("Standup", 0x14)
  ]

  const NewsCurrentAffairs: Table := [
    ("News/Current Affairs", 0x20),
    ("News/Weather Report", 0x21),
    ("News Magazine", 0x22),
    ("Documentary", 0x23),
    ("Discussion/Inverview/Debate", 0x24),
    ("Weather", 0x21)
  ]

  const Shows: Table := [
    ("Show/Game Show", 0x30),
    ("Game Show/Quiz/Contest", 0x31),
    ("Variety Show", 0x32),
    ("Talk Show", 0x33)
  ]

  const Sports: Table := [
    ("Sports", 0x40),
    ("Action sports", 0x40),
    ("Special Event", 0x41),
    ("Sport Magazine", 0x42),
    ("Football/Soccer", 0x43),
    ("Tennis/Squash", 0x44),
    ("Team Sports", 0x45),
    ("Athletics", 0x46),
    ("Motor Sport", 0x47),
    ("Water Sport", 0x48),
    ("Winter Sports", 0x49),
    ("Equestrian", 0x4A),
    ("Martial Sports", 0x4B),
    ("Archery", 0x46),
    ("Baseball", 0x45),
    ("Basketball", 0x45),
    ("Bicycle", 0x40),
    ("Boxing", 0x40),
    ("Billiards", 0x40)
  ]

  const ChildrenYouth: Table := [
    ("Children's/Youth Programme", 0x50),
    ("Pre-school Children's Programme", 0x51),
    ("Entertainment Programme for 6 to 14", 0x52),
    ("Entertainment Programme for 10 to 16", 0x53),
    ("Informational/Educational/School Programme", 0x54),
    ("Cartoons/Puppets", 0x55),
    ("Paid Programming", 0x54)
  ]

  const MusicBalletDance: Table := [
    ("Music/Ballet/Dance", 0x60),
    ("Rock/Pop", 0x61),
    ("Serious/Classical Music", 0x62),
    ("Folk/Tradional Music", 0x63),
    ("Jazz", 0x64),
    ("Musical/Opera", 0x65),
    ("Ballet", 0x66)
  ]

  const ArtsCulture: Table := [
    ("Arts/Culture", 0x70),
    ("Performing Arts", 0x71),
    ("Fine Arts", 0x72),
    ("Religion", 0x73),
    ("Religous", 0x73),
    ("Popular Culture/Traditional Arts", 0x74),
    ("Literature", 0x75),
    ("Film/Cinema", 0x76),
    ("Experimental Film/Video", 0x77),
    ("Broadcasting/Press", 0x78),
    ("New Media", 0x79),
    ("Arts/Culture Magazine", 0x7A),
    ("Fashion", 0x7B),
    ("Arts/crafts", 0x70)
  ]

  const SocialPoliticalEconomics: Table := [
    ("Social/Political/Economics", 0x80),
    ("Magazine/Report/Documentary", 0x81),
    ("Economics/Social Advisory", 0x82),
    ("Remarkable People", 0x83)
  ]

  const EducationalScience: Table := [
    ("Education/Science/Factual", 0x90),
    ("Nature/Animals/Environment", 0x91),
    ("Technology/Natural Sciences", 0x92),
    ("Medicine/Physiology/Psychology", 0x93),
    ("Foreign Countries/Expeditions", 0x94),
    ("Social/Spiritual Sciences", 0x95),
    ("Further Education", 0x96),
    ("Languages", 0x97)
  ]

  const LeisureHobbies: Table := [
    ("Leisure/Hobbies", 0xA0),
    ("Tourism/Travel", 0xA1),
    ("Handicraft", 0xA2),
    ("Motoring", 0xA3),
    ("Fitness & Health", 0xA4),
    ("Cooking", 0xA5),
    ("Advertisement/Shopping", 0xA6),
    ("Gardening", 0xA7),
    ("Aerobics", 0xA4)
  ]

  const Special: Table := [
    ("Original Language", 0xB1),
    ("Black & White", 0xB2),
    ("Unpublished", 0xB3),
    ("Live Broadcast", 0xB4)
  ]

  const Additions: Table := [
    ("Children", 0x50),
    ("Animated", 0x50),
    ("Crime/Mystery", 0x11),
    ("Educational", 0x90),
    ("Science/Nature", 0x91),
    ("Adult", 0x18),
    ("Music", 0x60),
    ("News", 0x20),
    ("Talk", 0x33),
    ("Unknown", 0x0),
    ("Anime", 0x50),
    ("Animation", 0x50)
  ]

  /** US TV parental-guideline label to minimum age. */
  const Ratings: Table := [
    ("TV-Y", 2),
    ("TV-Y7", 7),
    ("TV-G", 8),
    ("TV-PG", 10),
    ("TV-14", 14),
    ("TV-MA", 18)
  ]

  /** `key` has an entry in `t`. */
  predicate Has(t: Table, key: string) {
    exists i :: 0 <= i < |t| && t[i].0 == key
  }

  /** Go's `m[key]`: the value stored under `key`, or 0 when there is none. */
  function Lookup(t: Table, key: string): (v: int)
    ensures !Has(t, key) ==> v == 0
    ensures forall i :: 0 <= i < |t| && t[i].0 == key && (forall j :: 0 <= j < i ==> t[j].0 != key) ==> v == t[i].1
    ensures Has(t, key) ==> exists i :: 0 <= i < |t| && t[i] == (key, v)
  {
    if |t| == 0 then 0
    else if t[0].0 == key then t[0].1
    else
      var v := Lookup(t[1..], key);
      assert forall i :: 1 <= i < |t| ==> t[1..][i - 1] == t[i];
      v
  }

  /** `genres[val]`: the code of a known category, 0 for any other. */
  function GenreCode(category: string): (g: int)
    ensures !Has(Genres, category) ==> g == 0
    ensures Has(Genres, category) ==> exists i :: 0 <= i < |Genres| && Genres[i] == (category, g)
    ensures 0 <= g < 0xC0
  {
    GenreCodesInGroups();
    Lookup(Genres, category)
  }

  /** One code per category, in category order. */
  function GenreCodes(categories: seq<string>): (gs: seq<int>)
    ensures |gs| == |categories|
    ensures forall i :: 0 <= i < |categories| ==> gs[i] == GenreCode(categories[i])
  {
    if |categories| == 0 then []
    else [GenreCode(categories[0])] + GenreCodes(categories[1..])
  }

  /** `ratings[p.Rating]`: the age of a known label, 0 for an unknown or
      absent one. */
  function RatingCode(value: string): (r: int)
    ensures !Has(Ratings, value) ==> r == 0
    ensures Has(Ratings, value) ==> exists i :: 0 <= i < |Ratings| && Ratings[i] == (value, r)
    ensures r in {0, 2, 7, 8, 10, 14, 18}
  {
    Lookup(Ratings, value)
  }

  /** The genre table is many-to-one: a synonym listed after its
      category shares the code. */
  lemma SynonymExample()
    ensures GenreCode("Action") == GenreCode("Movie/Drama") == 0x10
  {
    assert MovieDrama[0] == ("Movie/Drama", 0x10);
    assert MovieDrama[1] == ("Action", 0x10);
    assert Genres[..|MovieDrama|] == MovieDrama;
  }

  /** A rating label is matched exactly: a different capitalisation, like
      an absent rating, reads as 0. */
  lemma RatingExample()
    ensures RatingCode("TV-PG") == 10
    ensures RatingCode("tv-pg") == 0 && RatingCode("") == 0
  {
    assert Ratings[3] == ("TV-PG", 10);
    assert forall i :: 0 <= i < |Ratings| ==> Ratings[i].0 != "tv-pg" && Ratings[i].0 != "";
  }

  /** Every code of `t` lies in content group `g` (its high nibble). */
  predicate InGroup(t: Table, g: int) {
    forall i :: 0 <= i < |t| ==> 0 <= t[i].1 && t[i].1 / 16 == g
  }

  /** Every code of `t` is at least 0 and below `hi`. */
  predicate CodesBelow(t: Table, hi: int) {
    forall i :: 0 <= i < |t| ==> 0 <= t[i].1 < hi
  }

  /** Each group of the table holds only codes of the content nibble its
      heading names. */
  lemma GenreGroups()
    ensures InGroup(MovieDrama, 0x1) && InGroup(NewsCurrentAffairs, 0x2)
    ensures InGroup(Shows, 0x3) && InGroup(Sports, 0x4)
    ensures InGroup(ChildrenYouth, 0x5) && InGroup(MusicBalletDance, 0x6)
    ensures InGroup(ArtsCulture, 0x7) && InGroup(SocialPoliticalEconomics, 0x8)
    ensures InGroup(EducationalScience, 0x9) && InGroup(LeisureHobbies, 0xA)
    ensures InGroup(Special, 0xB)
  {
    MovieGroups();
    SportsGroups();
    CultureGroups();
    LeisureGroups();
  }

  lemma MovieGroups()
    ensures InGroup(MovieDrama, 0x1) && InGroup(NewsCurrentAffairs, 0x2) && InGroup(Shows, 0x3)
  {
  }

  lemma SportsGroups()
    ensures InGroup(Sports, 0x4) && InGroup(ChildrenYouth, 0x5)
  {
  }

  lemma CultureGroups()
    ensures InGroup(MusicBalletDance, 0x6) && InGroup(ArtsCulture, 0x7) && InGroup(SocialPoliticalEconomics, 0x8)
  {
  }

  lemma LeisureGroups()
    ensures InGroup(EducationalScience, 0x9) && InGroup(LeisureHobbies, 0xA) && InGroup(Special, 0xB)
  {
  }

  lemma GroupBelow(t: Table, g: int, hi: int)
    requires InGroup(t, g) && g * 16 + 16 <= hi
    ensures CodesBelow(t, hi)
  {
  }

  lemma AppendBelow(a: Table, b: Table, hi: int)
    requires CodesBelow(a, hi) && CodesBelow(b, hi)
    ensures CodesBelow(a + b, hi)
  {
  }

  /** Every code in the table is a content descriptor byte of the groups
      0x0_ to 0xB_. */
  lemma GenreCodesInGroups()
    ensures CodesBelow(Genres, 0xC0)
  {
    GenreGroups();
    GroupBelow(MovieDrama, 0x1, 0xC0);
    GroupBelow(NewsCurrentAffairs, 0x2, 0xC0);
    GroupBelow(Shows, 0x3, 0xC0);
    GroupBelow(Sports, 0x4, 0xC0);
    GroupBelow(ChildrenYouth, 0x5, 0xC0);
    GroupBelow(MusicBalletDance, 0x6, 0xC0);
    GroupBelow(ArtsCulture, 0x7, 0xC0);
    GroupBelow(SocialPoliticalEconomics, 0x8, 0xC0);
    GroupBelow(EducationalScience, 0x9, 0xC0);
    GroupBelow(LeisureHobbies, 0xA, 0xC0);
    GroupBelow(Special, 0xB, 0xC0);
    assert CodesBelow(Additions, 0xC0);
    var t := MovieDrama;
    AppendBelow(t, NewsCurrentAffairs, 0xC0); t := t + NewsCurrentAffairs;
    AppendBelow(t, Shows, 0xC0); t := t + Shows;
    AppendBelow(t, Sports, 0xC0); t := t + Sports;
    AppendBelow(t, ChildrenYouth, 0xC0); t := t + ChildrenYouth;
    AppendBelow(t, MusicBalletDance, 0xC0); t := t + MusicBalletDance;
    AppendBelow(t, ArtsCulture, 0xC0); t := t + ArtsCulture;
    AppendBelow(t, SocialPoliticalEconomics, 0xC0); t := t + SocialPoliticalEconomics;
    AppendBelow(t, EducationalScience, 0xC0); t := t + EducationalScience;
    AppendBelow(t, LeisureHobbies, 0xC0); t := t + LeisureHobbies;
    AppendBelow(t, Special, 0xC0); t := t + Special;
    AppendBelow(t, Additions, 0xC0); t := t + Additions;
    assert t == Genres;
  }
}
