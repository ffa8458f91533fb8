/** The process-wide settings object (src/config.py), passed explicitly instead of read from the environment. */
module Config {

  /** The defaults src/config.py falls back on; named for reference, since `Settings` takes explicit values. */
  const DefaultModel: string := "gpt-4o-mini"
  const DefaultOutputDir: string := "outputs"

  /** `settings`: the API key and output directory are read-only; `main` overwrites `model` in place. */
  class Settings {
    const apiKey: string
    var model: string
    const outputDir: string

    constructor (apiKey: string, model: string, outputDir: string)
      ensures this.apiKey == apiKey && this.model == model && this.outputDir == outputDir
    {
      this.apiKey := apiKey;
      this.model := model;
      this.outputDir := outputDir;
    }
  }
}
