/** The binding adapters as writes to the state of the views they are bound
    to.  Every adapter leaves its view untouched when its bound value is null
    and otherwise makes exactly one write. */
module BindingAdapters {

  import opened Wrappers
  import opened CivilDate
  import opened DateRange
  import opened Resources

  /** The displayed text of a `TextView`. */
  class TextView {
    var text: string

    constructor (text: string)
      ensures this.text == text
    {
      this.text := text;
    }

    /** `TextView.setDateFromTo`: with both dates bound, shows their range label. */
    method SetDateFromTo(dateFrom: Option<Instant>, dateTo: Option<Instant>)
      requires dateFrom.Some? ==> ValidInstant(dateFrom.value)
      requires dateTo.Some? ==> ValidInstant(dateTo.value)
      modifies this
      ensures dateFrom.None? || dateTo.None? ==> text == old(text)
      ensures dateFrom.Some? && dateTo.Some? ==> text == RangeLabel(dateFrom.value, dateTo.value)
    {
      if dateFrom.Some? && dateTo.Some? {
        var from, to := dateFrom.value, dateTo.value;
        if from == to {
          text := DateFormat.MonthYear(from.date);
        } else {
          var a := DateFormat.MonthYear(from.date);
          var b := DateFormat.MonthYear(to.date);
          var diff := MonthsBetween(from.date, to.date);
          text := a + " - " + b + " | " + DurationLabel(diff);
        }
      }
    }
  }

  /** The image resource an `ImageView` shows (none before one is set). */
  class ImageView {
    var image: Option<Drawable>

    constructor ()
      ensures image == None
    {
      image := None;
    }

    /** `ImageView.setSocialIcon`. */
    method SetSocialIcon(name: Option<string>)
      modifies this
      ensures name.None? ==> image == old(image)
      ensures name.Some? ==> image == Some(SocialIcon(name.value))
    {
      if name.Some? {
        image := Some(SocialIcon(name.value));
      }
    }

    /** `ImageView.setCategoryIcon`. */
    method SetCategoryIcon(icon: Option<string>)
      modifies this
      ensures icon.None? ==> image == old(image)
      ensures icon.Some? ==> image == Some(CategoryIcon(icon.value))
    {
      if icon.Some? {
        image := Some(CategoryIcon(icon.value));
      }
    }
  }

  /** The icon and the background tint of a `MaterialButton`. */
  class MaterialButton {
    var icon: Option<Drawable>
    var backgroundTint: Option<ButtonColor>

    constructor ()
      ensures icon == None && backgroundTint == None
    {
      icon, backgroundTint := None, None;
    }

    /** `MaterialButton.setButtonIcon`: changes the icon and nothing else. */
    method SetButtonIcon(kind: Option<string>)
      modifies this`icon
      ensures kind.None? ==> icon == old(icon)
      ensures kind.Some? ==> icon == Some(ButtonIcon(kind.value))
    {
      if kind.Some? {
        icon := Some(ButtonIcon(kind.value));
      }
    }

    /** `MaterialButton.setButtonBackground`: changes the tint and nothing else. */
    method SetButtonBackground(kind: Option<string>)
      modifies this`backgroundTint
      ensures kind.None? ==> backgroundTint == old(backgroundTint)
      ensures kind.Some? ==> backgroundTint == Some(ButtonBackground(kind.value))
    {
      if kind.Some? {
        backgroundTint := Some(ButtonBackground(kind.value));
      }
    }
  }
}
