/** The badge tables of the admin console: the achievement types a badge can reward, their
    labels, and the fixed colour palette offered in the badge form. */
module Badges {
  import opened JsValues

  /** The keys of `BADGE_TYPES`. */
  datatype BadgeType = VideosCompleted | CoursesCompleted | HoursWatched
                     | CommentsMade | RatingsGiven | CommunityPosts

  const AllBadgeTypes: seq<BadgeType> :=
    [VideosCompleted, CoursesCompleted, HoursWatched, CommentsMade, RatingsGiven, CommunityPosts]

  /** `BADGE_TYPES[key]`: the code stored on a badge. */
  function TypeCode(t: BadgeType): string
  {
    match t
    case VideosCompleted => "videos_completed"
    case CoursesCompleted => "courses_completed"
    case HoursWatched => "hours_watched"
    case CommentsMade => "comments_made"
    case RatingsGiven => "ratings_given"
    case CommunityPosts => "community_posts"
  }

  /** `BADGE_TYPE_LABELS`, a record keyed by type code. */
  const TypeLabels: map<string, string> := map[
    "videos_completed" := "Vídeos Concluídos",
    "courses_completed" := "Cursos Concluídos",
    "hours_watched" := "Horas Assistidas",
    "comments_made" := "Comentários Realizados",
    "ratings_given" := "Avaliações Realizadas",
    "community_posts" := "Postagens na Comunidade"]

  /** `BADGE_TYPE_LABELS[code]`; `undefined` for a code the table does not know. */
  function TypeLabel(code: string): Option<string>
  {
    if code in TypeLabels then Some(TypeLabels[code]) else None
  }

  /** There are six badge types, listed once each, and no two share a code. */
  lemma BadgeTypesDistinct()
    ensures |AllBadgeTypes| == 6
    ensures forall t :: t in AllBadgeTypes
    ensures forall i, j :: 0 <= i < j < |AllBadgeTypes| ==> AllBadgeTypes[i] != AllBadgeTypes[j]
    ensures forall a, b :: TypeCode(a) == TypeCode(b) ==> a == b
  {
    forall t
      ensures t in AllBadgeTypes
    {
      match t
      case VideosCompleted => assert AllBadgeTypes[0] == t;
      case CoursesCompleted => assert AllBadgeTypes[1] == t;
      case HoursWatched => assert AllBadgeTypes[2] == t;
      case CommentsMade => assert AllBadgeTypes[3] == t;
      case RatingsGiven => assert AllBadgeTypes[4] == t;
      case CommunityPosts => assert AllBadgeTypes[5] == t;
    }
    forall a, b | TypeCode(a) == TypeCode(b)
      ensures a == b
    {
      TypeCodeFirstLetters(a);
      TypeCodeFirstLetters(b);
    }
  }

  /** The codes told apart by their first letter and their length. */
  lemma TypeCodeFirstLetters(t: BadgeType)
    ensures t == VideosCompleted <==> TypeCode(t)[0] == 'v'
    ensures t == HoursWatched <==> TypeCode(t)[0] == 'h'
    ensures t == RatingsGiven <==> TypeCode(t)[0] == 'r'
    ensures t == CoursesCompleted <==> TypeCode(t)[0] == 'c' && |TypeCode(t)| == 17
    ensures t == CommentsMade <==> TypeCode(t)[0] == 'c' && |TypeCode(t)| == 13
    ensures t == CommunityPosts <==> TypeCode(t)[0] == 'c' && |TypeCode(t)| == 15
  {
  }

  /** Every badge type has a label, and the table labels nothing else. */
  lemma EveryTypeLabelled()
    ensures forall t :: TypeLabel(TypeCode(t)).Some?
    ensures forall code :: code in TypeLabels ==> exists t :: TypeCode(t) == code
  {
    forall code | code in TypeLabels
      ensures exists t :: TypeCode(t) == code
    {
      if code == "videos_completed" { assert TypeCode(VideosCompleted) == code; }
      else if code == "courses_completed" { assert TypeCode(CoursesCompleted) == code; }
      else if code == "hours_watched" { assert TypeCode(HoursWatched) == code; }
      else if code == "comments_made" { assert TypeCode(CommentsMade) == code; }
      else if code == "ratings_given" { assert TypeCode(RatingsGiven) == code; }
      else { assert TypeCode(CommunityPosts) == code; }
    }
  }

  /** The keys of `BADGE_COLORS`, in declaration order. */
  datatype BadgeColor = Primary | Secondary | Yellow | Blue | Green | Red | Purple | Orange

  const AllColors: seq<BadgeColor> := [Primary, Secondary, Yellow, Blue, Green, Red, Purple, Orange]

  /** `BADGE_COLORS[key]`. */
  function ColorHex(c: BadgeColor): string
  {
    match c
    case Primary => "#8E2DE2"
    case Secondary => "#4A00E0"
    case Yellow => "#FFD700"
    case Blue => "#3B82F6"
    case Green => "#10B981"
    case Red => "#EF4444"
    case Purple => "#A855F7"
    case Orange => "#F97316"
  }

  /** One entry of `BADGE_COLOR_OPTIONS`; `caption` is its `label` (a reserved word here). */
  datatype ColorOption = ColorOption(value: string, caption: string)

  const ColorOptions: seq<ColorOption> := [
    ColorOption(ColorHex(Primary), "Roxo Primário"),
    ColorOption(ColorHex(Secondary), "Roxo Secundário"),
    ColorOption(ColorHex(Yellow), "Amarelo"),
    ColorOption(ColorHex(Blue), "Azul"),
    ColorOption(ColorHex(Green), "Verde"),
    ColorOption(ColorHex(Red), "Vermelho"),
    ColorOption(ColorHex(Purple), "Roxo"),
    ColorOption(ColorHex(Orange), "Laranja")]

  predicate IsHexDigit(c: char)
  {
    '0' <= c <= '9' || 'A' <= c <= 'F'
  }

  /** A CSS colour `#RRGGBB` written with upper-case digits. */
  predicate IsHexColor(s: string)
  {
    |s| == 7 && s[0] == '#' && forall i :: 1 <= i < 7 ==> IsHexDigit(s[i])
  }

  /** Every colour is a `#RRGGBB` value, and no two colours share one. */
  lemma ColorsDistinct()
    ensures |AllColors| == 8 && forall c :: c in AllColors
    ensures forall i, j :: 0 <= i < j < |AllColors| ==> AllColors[i] != AllColors[j]
    ensures forall c :: IsHexColor(ColorHex(c))
    ensures forall a, b :: ColorHex(a) == ColorHex(b) ==> a == b
  {
    forall c
      ensures c in AllColors && IsHexColor(ColorHex(c))
    {
      ColorHexWellFormed(c);
      match c
      case Primary => assert AllColors[0] == c;
      case Secondary => assert AllColors[1] == c;
      case Yellow => assert AllColors[2] == c;
      case Blue => assert AllColors[3] == c;
      case Green => assert AllColors[4] == c;
      case Red => assert AllColors[5] == c;
      case Purple => assert AllColors[6] == c;
      case Orange => assert AllColors[7] == c;
    }
    forall a, b | ColorHex(a) == ColorHex(b)
      ensures a == b
    {
      ColorHexDigits(a);
      ColorHexDigits(b);
    }
  }

  lemma ColorHexWellFormed(c: BadgeColor)
    ensures IsHexColor(ColorHex(c))
  {
    var s := ColorHex(c);
    assert IsHexDigit(s[1]) && IsHexDigit(s[2]) && IsHexDigit(s[3]);
    assert IsHexDigit(s[4]) && IsHexDigit(s[5]) && IsHexDigit(s[6]);
  }

  /** The colours told apart by their first two hex digits. */
  lemma ColorHexDigits(c: BadgeColor)
    ensures |ColorHex(c)| == 7
    ensures c == Primary <==> ColorHex(c)[1] == '8'
    ensures c == Secondary <==> ColorHex(c)[1] == '4'
    ensures c == Yellow <==> ColorHex(c)[1] == 'F' && ColorHex(c)[2] == 'F'
    ensures c == Blue <==> ColorHex(c)[1] == '3'
    ensures c == Green <==> ColorHex(c)[1] == '1'
    ensures c == Red <==> ColorHex(c)[1] == 'E'
    ensures c == Purple <==> ColorHex(c)[1] == 'A'
    ensures c == Orange <==> ColorHex(c)[1] == 'F' && ColorHex(c)[2] == '9'
  {
  }

  /** The form offers exactly the palette, in declaration order. */
  lemma ColorOptionsMatchPalette()
    ensures |ColorOptions| == |AllColors|
    ensures forall i :: 0 <= i < |ColorOptions| ==> ColorOptions[i].value == ColorHex(AllColors[i])
  {
  }

  /** So each colour is offered once. */
  lemma ColorOptionValuesDistinct()
    ensures forall i, j :: 0 <= i < j < |ColorOptions| ==> ColorOptions[i].value != ColorOptions[j].value
  {
    ColorOptionsMatchPalette();
    ColorsDistinct();
    forall i, j | 0 <= i < j < |ColorOptions|
      ensures ColorOptions[i].value != ColorOptions[j].value
    {
      assert AllColors[i] != AllColors[j];
    }
  }

  /** No two options share a label. */
  lemma ColorCaptionsDistinct()
    ensures forall i, j :: 0 <= i < j < |ColorOptions| ==> ColorOptions[i].caption != ColorOptions[j].caption
  {
    var lengths := [13, 15, 7, 4, 5, 8, 4, 7];
    var initials := ['R', 'R', 'A', 'A', 'V', 'V', 'R', 'L'];
    forall i | 0 <= i < |ColorOptions|
      ensures |ColorOptions[i].caption| == lengths[i] && ColorOptions[i].caption[0] == initials[i]
    {
    }
  }
}
