/**
 * The icon lookup of the admin and public pages: a fixed table from an
 * icon's name to the icon, and a fallback for every other name.
 */
module IconMapper {
  /** The `lucide-react` icons the lookups can return. */
  datatype Icon = AppWindow | Network | Cpu | Clapperboard | FolderKanban | HelpCircle

  /** The name under which each icon is exported. */
  function IconName(icon: Icon): string {
    match icon
    case AppWindow => "AppWindow"
    case Network => "Network"
    case Cpu => "Cpu"
    case Clapperboard => "Clapperboard"
    case FolderKanban => "FolderKanban"
    case HelpCircle => "HelpCircle"
  }

  /** The `icons` record: each entry is keyed by its icon's own name. */
  const Icons: map<string, Icon> :=
    map["AppWindow" := AppWindow, "Network" := Network, "Cpu" := Cpu, "Clapperboard" := Clapperboard]

  /** `getIconByName`: the icon of that exact name when the table has it,
      `HelpCircle` for every other name. */
  function GetIconByName(name: string): (r: Icon)
    ensures r != HelpCircle <==>
      name == "AppWindow" || name == "Network" || name == "Cpu" || name == "Clapperboard"
    ensures r != HelpCircle ==> IconName(r) == name
  {
    if name in Icons then Icons[name] else HelpCircle
  }

  /** Matching is case-sensitive: a lower-case name is not found. */
  lemma LookupIsCaseSensitive()
    ensures GetIconByName("cpu") == HelpCircle
    ensures GetIconByName("Cpu") == Cpu
  {
  }

  /** The icon name a division gets by default is not in the table. */
  lemma DefaultDivisionIconFallsBack()
    ensures GetIconByName("FolderKanban") == HelpCircle
  {
  }
}
