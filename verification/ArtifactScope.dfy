/** What counts as a deliverable: the directory names no scan and no snapshot descends into. */
module ArtifactScope {
  /** `ARTIFACT_SKIP_DIRS`. */
  const SKIP_DIRS: set<string> := {
    "node_modules", ".venv", "venv",
    "__pycache__", ".pytest_cache", ".mypy_cache", ".ruff_cache", ".cache", ".gradle", ".tox",
    "dist", "build", ".next", "target", ".output", ".turbo",
    ".git", ".svn", ".hg",
    ".agents", ".blade", ".octagon"
  }
}
