/** The request bodies of dish creation and dish update, and the field rules the validation pipe
    enforces on them (backend/src/dish/dtos). A field that is absent is `None`; a present field
    already has the declared type, so `@IsString` and `@IsInt` are carried by the types. */
module DishDtos {
  import opened Common

  /** The moderation state of a dish. */
  datatype Status = Pending | Approved | Rejected

  function StatusName(s: Status): string {
    match s
    case Pending => "pending"
    case Approved => "approved"
    case Rejected => "rejected"
  }

  /** `@IsIn(['pending', 'approved', 'rejected'])`: the status text a request may carry. */
  function ParseStatus(t: string): (r: Option<Status>)
    ensures r.Some? <==> t == "pending" || t == "approved" || t == "rejected"
    ensures r.Some? ==> StatusName(r.value) == t
  {
    if t == "pending" then Some(Pending)
    else if t == "approved" then Some(Approved)
    else if t == "rejected" then Some(Rejected)
    else None
  }

  lemma StatusNameRoundTrip(s: Status)
    ensures ParseStatus(StatusName(s)) == Some(s)
  {
  }

  datatype CreateDishDto = CreateDishDto(
    nameJapanese: Option<string>,
    nameVietnamese: Option<string>,
    nameRomaji: Option<string>,
    descriptionJapanese: Option<string>,
    descriptionVietnamese: Option<string>,
    descriptionRomaji: Option<string>,
    categoryId: Option<int>,
    regionId: Option<int>,
    spicinessLevel: Option<int>,
    saltinessLevel: Option<int>,
    sweetnessLevel: Option<int>,
    sournessLevel: Option<int>,
    ingredients: Option<string>,
    howToEat: Option<string>,
    imageUrl: Option<string>)

  datatype UpdateDishDto = UpdateDishDto(
    nameJapanese: Option<string>,
    nameVietnamese: Option<string>,
    nameRomaji: Option<string>,
    descriptionJapanese: Option<string>,
    descriptionVietnamese: Option<string>,
    descriptionRomaji: Option<string>,
    imageUrl: Option<string>,
    categoryId: Option<int>,
    regionId: Option<int>,
    spicinessLevel: Option<int>,
    saltinessLevel: Option<int>,
    sweetnessLevel: Option<int>,
    sournessLevel: Option<int>,
    ingredients: Option<string>,
    howToEat: Option<string>,
    status: Option<Status>,
    rejectionReason: Option<string>)

  /** `@IsNotEmpty()`: present and not ''. */
  predicate Required(s: Option<string>) {
    s.Some? && s.value != ""
  }

  /** `@IsOptional() @IsInt() @Min(0) @Max(max)` */
  predicate LevelWithin(level: Option<int>, max: int) {
    level.None? || 0 <= level.value <= max
  }

  /** The rules of CreateDishDto; `isUrl` stands for class-validator's `@IsUrl`. */
  predicate ValidCreate(d: CreateDishDto, isUrl: string -> bool) {
    && Required(d.nameJapanese)
    && Required(d.nameVietnamese)
    && LevelWithin(d.spicinessLevel, 10)
    && LevelWithin(d.saltinessLevel, 5)
    && LevelWithin(d.sweetnessLevel, 5)
    && LevelWithin(d.sournessLevel, 5)
    && (d.imageUrl.None? || isUrl(d.imageUrl.value))
  }

  /** The rules of UpdateDishDto: every field is optional, all four levels are on the 0..5 scale. */
  predicate ValidUpdate(d: UpdateDishDto) {
    && LevelWithin(d.spicinessLevel, 5)
    && LevelWithin(d.saltinessLevel, 5)
    && LevelWithin(d.sweetnessLevel, 5)
    && LevelWithin(d.sournessLevel, 5)
  }

  const EmptyUpdate := UpdateDishDto(None, None, None, None, None, None, None, None, None,
                                     None, None, None, None, None, None, None, None)

  /** A valid creation request has both names, and each level it gives lies on its scale. */
  lemma ValidCreateFields(d: CreateDishDto, isUrl: string -> bool)
    requires ValidCreate(d, isUrl)
    ensures d.nameJapanese.Some? && |d.nameJapanese.value| > 0
    ensures d.nameVietnamese.Some? && |d.nameVietnamese.value| > 0
    ensures d.spicinessLevel.Some? ==> 0 <= d.spicinessLevel.value <= 10
    ensures d.saltinessLevel.Some? ==> 0 <= d.saltinessLevel.value <= 5
    ensures d.sweetnessLevel.Some? ==> 0 <= d.sweetnessLevel.value <= 5
    ensures d.sournessLevel.Some? ==> 0 <= d.sournessLevel.value <= 5
  {
  }

  /** The empty update is valid: no field is required. */
  lemma EmptyUpdateIsValid()
    ensures ValidUpdate(EmptyUpdate)
  {
  }

  /** Spiciness is on a 0..10 scale at creation but a 0..5 scale in an update: a dish created with
      spiciness 8 cannot be sent back unchanged through an update. */
  lemma SpicinessScalesDiffer(isUrl: string -> bool)
    ensures ValidCreate(CreateDishDto(Some("Phở"), Some("Phở"), None, None, None, None, None, None,
                                      Some(8), None, None, None, None, None, None), isUrl)
    ensures !ValidUpdate(EmptyUpdate.(spicinessLevel := Some(8)))
  {
  }
}
